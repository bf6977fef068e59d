/**
 * The completion of hazardsets: a hazardset whose required layers are all present and downloaded
 * gets its locality, dates and qualities from its layers and is marked complete.
 */
module Completing {
  import opened Types
  import opened Schema

  datatype CompleteError =
    | MissingHazardSet(id: string)
    | MissingSettings(mnemonic: string)
    | MixedLocal(id: string)  // the per-locality statistics query has more than one row

  const CompletionLevels: seq<HazardLevel> := [LOW, MED, HIG]

  function LayersOf(layers: seq<Layer>, id: string): seq<Layer>
  {
    Filter(layers, (l: Layer) => l.hazardsetId == id)
  }

  /** The hazardset's layer at `level`, if it has one: the first one in table order. */
  function LayerByLevel(layers: seq<Layer>, id: string, level: HazardLevel): (r: Option<Layer>)
    ensures r.Some? ==> r.value in layers && r.value.hazardsetId == id && r.value.level == Some(level)
  {
    match FirstIndex(layers, (l: Layer) => l.hazardsetId == id && l.level == Some(level))
    case None => None
    case Some(k) => Some(layers[k])
  }

  /** A hazardset has no layer at `level` exactly when none of the table's layers is one. */
  lemma LayerByLevelMissing(layers: seq<Layer>, id: string, level: HazardLevel)
    ensures LayerByLevel(layers, id, level).None? <==>
      forall k :: 0 <= k < |layers| ==> !(layers[k].hazardsetId == id && layers[k].level == Some(level))
  {
  }

  /**
   * The layers the completion checks: the first layer of a preprocessed hazardset, otherwise
   * one layer per level, in the order LOW, MED, HIG; None when one is missing.
   */
  function RequiredLayers(layers: seq<Layer>, id: string, preprocessed: bool): (r: Option<seq<Layer>>)
    ensures r.Some? ==> |r.value| > 0 && forall k :: 0 <= k < |r.value| ==> r.value[k] in layers && r.value[k].hazardsetId == id
    ensures preprocessed ==> (r.None? <==> |LayersOf(layers, id)| == 0)
    ensures preprocessed && r.Some? ==> r.value == [LayersOf(layers, id)[0]]
    ensures !preprocessed ==> (r.None? <==> (LayerByLevel(layers, id, LOW).None? || LayerByLevel(layers, id, MED).None? || LayerByLevel(layers, id, HIG).None?))
    ensures !preprocessed && r.Some? ==> r.value == [LayerByLevel(layers, id, LOW).value, LayerByLevel(layers, id, MED).value, LayerByLevel(layers, id, HIG).value]
  {
    if preprocessed then
      var own := LayersOf(layers, id);
      if |own| == 0 then None else Some([own[0]])
    else
      var low, med, hig := LayerByLevel(layers, id, LOW), LayerByLevel(layers, id, MED), LayerByLevel(layers, id, HIG);
      if low.None? || med.None? || hig.None? then None else Some([low.value, med.value, hig.value])
  }

  /** The smallest element, as SQL's `min`. */
  function MinOf(xs: seq<int>): (m: int)
    requires |xs| > 0
    ensures m in xs
    ensures forall k :: 0 <= k < |xs| ==> m <= xs[k]
    decreases |xs|
  {
    if |xs| == 1 then xs[0]
    else
      var rest := MinOf(xs[1..]);
      if xs[0] <= rest then xs[0] else rest
  }

  predicate UniformLocality(layers: seq<Layer>)
  {
    forall k :: 0 <= k < |layers| ==> layers[k].local == layers[0].local
  }

  /**
   * The hazardset with its statistics: the one locality of its layers, the earliest dates and the
   * lowest qualities over all of them.
   */
  function Completed(hs: HazardSet, own: seq<Layer>): HazardSet
    requires |own| > 0
  {
    hs.(local := own[0].local,
        dataDate := MinOf(seq(|own|, i requires 0 <= i < |own| => own[i].dataDate)),
        metadataDate := MinOf(seq(|own|, i requires 0 <= i < |own| => own[i].metadataDate)),
        calcQuality := MinOf(seq(|own|, i requires 0 <= i < |own| => own[i].calcQuality)),
        sciQuality := MinOf(seq(|own|, i requires 0 <= i < |own| => own[i].sciQuality)),
        complete := true)
  }

  /**
   * One completion of hazardset `id`: the new tables and whether it completed, or the raised
   * error.  A hazardset whose type is not configured as preprocessed needs its three leveled layers.
   */
  function CompleteStep(t: Tables, id: string, settings: Settings): Result<(Tables, bool), CompleteError>
  {
    match FindHazardSet(t.hazardsets, id)
    case None => Err(MissingHazardSet(id))
    case Some(k) =>
      var hs := t.hazardsets[k];
      match SettingsOf(settings, hs.hazardtype)
      case None => Err(MissingSettings(hs.hazardtype))
      case Some(ts) =>
        match RequiredLayers(t.layers, id, ts.preprocessed == Some(true))
        case None => Ok((t, false))
        case Some(required) =>
          if exists j :: 0 <= j < |required| && !required[j].downloaded then Ok((t, false))
          else
            var own := LayersOf(t.layers, id);
            assert required[0] in own;
            if !UniformLocality(own) then Err(MixedLocal(id))
            else Ok((t.(hazardsets := t.hazardsets[k := Completed(hs, own)]), true))
  }

  /** Collects the layers the completion checks, returning as soon as one is missing. */
  method CollectRequired(layers: seq<Layer>, id: string, preprocessed: bool) returns (r: Option<seq<Layer>>)
    ensures r == RequiredLayers(layers, id, preprocessed)
  {
    if preprocessed {
      var own := LayersOf(layers, id);
      if |own| == 0 {
        return None;
      }
      return Some([own[0]]);
    }
    var required: seq<Layer> := [];
    var i := 0;
    while i < |CompletionLevels|
      invariant 0 <= i <= |CompletionLevels|
      invariant |required| == i
      invariant forall j :: 0 <= j < i ==> LayerByLevel(layers, id, CompletionLevels[j]) == Some(required[j])
    {
      var layer := LayerByLevel(layers, id, CompletionLevels[i]);
      if layer.None? {
        return None;
      }
      required := required + [layer.value];
      i := i + 1;
    }
    assert required == [required[0], required[1], required[2]];
    return Some(required);
  }

  /** Whether every layer has been downloaded, stopping at the first one that has not. */
  method AllDownloaded(required: seq<Layer>) returns (b: bool)
    ensures b <==> forall m :: 0 <= m < |required| ==> required[m].downloaded
  {
    var j := 0;
    while j < |required|
      invariant 0 <= j <= |required|
      invariant forall m :: 0 <= m < j ==> required[m].downloaded
    {
      if !required[j].downloaded {
        return false;
      }
      j := j + 1;
    }
    return true;
  }

  /** Completes one hazardset in the session. */
  method CompleteHazardset(db: Session, id: string, settings: Settings) returns (r: Result<bool, CompleteError>)
    modifies db
    ensures var spec := CompleteStep(old(db.Snapshot()), id, settings);
      (r.Err? <==> spec.Err?) && (r.Err? ==> r.error == spec.error && db.Snapshot() == old(db.Snapshot()))
      && (r.Ok? ==> r.value == spec.value.1 && db.Snapshot() == spec.value.0)
  {
    ghost var t := db.Snapshot();
    var k := FindHazardSet(db.hazardsets, id);
    if k.None? {
      assert CompleteStep(t, id, settings) == Err(MissingHazardSet(id));
      return Err(MissingHazardSet(id));
    }
    var hs := db.hazardsets[k.value];
    var ts := SettingsOf(settings, hs.hazardtype);
    if ts.None? {
      assert CompleteStep(t, id, settings) == Err(MissingSettings(hs.hazardtype));
      return Err(MissingSettings(hs.hazardtype));
    }
    var required := CollectRequired(db.layers, id, ts.value.preprocessed == Some(true));
    if required.None? {
      assert CompleteStep(t, id, settings) == Ok((t, false));
      return Ok(false);
    }
    var downloaded := AllDownloaded(required.value);
    if !downloaded {
      assert CompleteStep(t, id, settings) == Ok((t, false));
      return Ok(false);
    }
    var own := LayersOf(db.layers, id);
    assert required.value[0] in own;
    if !UniformLocality(own) {
      assert CompleteStep(t, id, settings) == Err(MixedLocal(id));
      return Err(MixedLocal(id));
    }
    assert CompleteStep(t, id, settings) == Ok((t.(hazardsets := t.hazardsets[k.value := Completed(hs, own)]), true));
    db.hazardsets := db.hazardsets[k.value := Completed(hs, own)];
    return Ok(true);
  }

  /** Every hazardset with `processed` reset. */
  function ResetProcessed(hazardsets: seq<HazardSet>): (r: seq<HazardSet>)
    ensures |r| == |hazardsets|
    ensures forall k :: 0 <= k < |r| ==> r[k] == hazardsets[k].(processed := false)
  {
    seq(|hazardsets|, k requires 0 <= k < |hazardsets| => hazardsets[k].(processed := false))
  }

  method ClearAll(db: Session)
    modifies db
    ensures db.Snapshot() == old(db.Snapshot()).(hazardsets := ResetProcessed(old(db.hazardsets)))
  {
    db.hazardsets := ResetProcessed(db.hazardsets);
  }

  predicate Pending(h: HazardSet, id: Option<string>, force: bool)
  {
    (force || !h.complete) && (id.None? || h.id == id.value)
  }

  /** The ids of the hazardsets to complete, in table order. */
  function PendingIds(hazardsets: seq<HazardSet>, id: Option<string>, force: bool): (r: seq<string>)
    ensures forall k :: 0 <= k < |hazardsets| && Pending(hazardsets[k], id, force) ==> hazardsets[k].id in r
    ensures forall x :: x in r ==> exists k :: 0 <= k < |hazardsets| && hazardsets[k].id == x && Pending(hazardsets[k], id, force)
    decreases |hazardsets|
  {
    if |hazardsets| == 0 then []
    else
      var rest := PendingIds(hazardsets[1..], id, force);
      assert forall x :: x in rest ==> exists k :: 0 <= k < |hazardsets| && hazardsets[k].id == x && Pending(hazardsets[k], id, force) by {
        forall x | x in rest
          ensures exists k :: 0 <= k < |hazardsets| && hazardsets[k].id == x && Pending(hazardsets[k], id, force)
        {
          var k :| 0 <= k < |hazardsets[1..]| && hazardsets[1..][k].id == x && Pending(hazardsets[1..][k], id, force);
          assert hazardsets[k + 1] == hazardsets[1..][k];
        }
      }
      assert forall k :: 1 <= k < |hazardsets| ==> hazardsets[k] == hazardsets[1..][k - 1];
      if Pending(hazardsets[0], id, force) then [hazardsets[0].id] + rest else rest
  }

  /** The loop over the ids: each completion is committed, or aborted on a dry run or an error. */
  function CompleteAll(t: Tables, ids: seq<string>, dryRun: bool, settings: Settings): Tables
    decreases |ids|
  {
    if |ids| == 0 then t
    else match CompleteStep(t, ids[0], settings)
      case Err(_) => CompleteAll(t, ids[1..], dryRun, settings)
      case Ok((after, _)) => CompleteAll(if dryRun then t else after, ids[1..], dryRun, settings)
  }

  /** The database a completion run starts from: all `processed` reset when forced, unless on a dry run. */
  function CompleteStart(t: Tables, force: bool, dryRun: bool): Tables
  {
    if force && !dryRun then t.(hazardsets := ResetProcessed(t.hazardsets)) else t
  }

  /** Completes the incomplete hazardsets (all of them when forced), only `id` if given. */
  method Complete(db: Session, id: Option<string>, force: bool, dryRun: bool, settings: Settings)
    modifies db
    ensures var start := CompleteStart(old(db.Snapshot()), force, dryRun);
      db.Snapshot() == CompleteAll(start, PendingIds(start.hazardsets, id, force), dryRun, settings)
  {
    if force {
      var saved := db.Snapshot();
      ClearAll(db);
      if dryRun {
        db.Restore(saved);
      }
    }
    var ids := PendingIds(db.hazardsets, id, force);
    var i := 0;
    while i < |ids|
      invariant 0 <= i <= |ids|
      invariant CompleteAll(CompleteStart(old(db.Snapshot()), force, dryRun), ids, dryRun, settings)
             == CompleteAll(db.Snapshot(), ids[i..], dryRun, settings)
    {
      assert ids[i..][0] == ids[i] && ids[i..][1..] == ids[i + 1..];
      var saved := db.Snapshot();
      var r := CompleteHazardset(db, ids[i], settings);
      if r.Err? || dryRun {
        db.Restore(saved);
      }
      i := i + 1;
    }
    assert ids[i..] == [];
  }

  // ----- properties -----


  /** What a completing step amounts to: the hazardset's row replaced by its statistics. */
  lemma CompletingStep(t: Tables, id: string, settings: Settings)
    requires CompleteStep(t, id, settings).Ok? && CompleteStep(t, id, settings).value.1
    ensures FindHazardSet(t.hazardsets, id).Some?
    ensures var k := FindHazardSet(t.hazardsets, id).value;
      var own := LayersOf(t.layers, id);
      |own| > 0 && UniformLocality(own)
      && CompleteStep(t, id, settings).value.0 == t.(hazardsets := t.hazardsets[k := Completed(t.hazardsets[k], own)])
  {
    var k := FindHazardSet(t.hazardsets, id).value;
    var ts := SettingsOf(settings, t.hazardsets[k].hazardtype).value;
    var required := RequiredLayers(t.layers, id, ts.preprocessed == Some(true)).value;
    assert required[0] in LayersOf(t.layers, id);
  }

  /** The statistics of `Completed`: bounds attained by the layers. */
  lemma CompletedStatistics(hs: HazardSet, own: seq<Layer>)
    requires |own| > 0 && UniformLocality(own)
    ensures var h := Completed(hs, own);
      h.complete && h.id == hs.id && h.hazardtype == hs.hazardtype && h.processed == hs.processed
      && (forall m :: 0 <= m < |own| ==>
            h.local == own[m].local && h.dataDate <= own[m].dataDate && h.metadataDate <= own[m].metadataDate
            && h.calcQuality <= own[m].calcQuality && h.sciQuality <= own[m].sciQuality)
      && (exists m :: 0 <= m < |own| && h.dataDate == own[m].dataDate)
      && (exists m :: 0 <= m < |own| && h.metadataDate == own[m].metadataDate)
      && (exists m :: 0 <= m < |own| && h.calcQuality == own[m].calcQuality)
      && (exists m :: 0 <= m < |own| && h.sciQuality == own[m].sciQuality)
  {
    var h := Completed(hs, own);
    var qualities := seq(|own|, i requires 0 <= i < |own| => own[i].calcQuality);
    var dates := seq(|own|, i requires 0 <= i < |own| => own[i].dataDate);
    var metadates := seq(|own|, i requires 0 <= i < |own| => own[i].metadataDate);
    var sci := seq(|own|, i requires 0 <= i < |own| => own[i].sciQuality);
    assert h.calcQuality == MinOf(qualities) && h.dataDate == MinOf(dates);
    assert h.metadataDate == MinOf(metadates) && h.sciQuality == MinOf(sci);
    var m :| 0 <= m < |qualities| && qualities[m] == MinOf(qualities);
    assert h.calcQuality == own[m].calcQuality;
    var n :| 0 <= n < |dates| && dates[n] == MinOf(dates);
    assert h.dataDate == own[n].dataDate;
    var n' :| 0 <= n' < |metadates| && metadates[n'] == MinOf(metadates);
    assert h.metadataDate == own[n'].metadataDate;
    var m' :| 0 <= m' < |sci| && sci[m'] == MinOf(sci);
    assert h.sciQuality == own[m'].sciQuality;
    forall j | 0 <= j < |own|
      ensures h.dataDate <= own[j].dataDate && h.metadataDate <= own[j].metadataDate
      ensures h.calcQuality <= own[j].calcQuality && h.sciQuality <= own[j].sciQuality
    {
      assert qualities[j] == own[j].calcQuality && dates[j] == own[j].dataDate;
      assert metadates[j] == own[j].metadataDate && sci[j] == own[j].sciQuality;
    }
  }

  /**
   * A completed hazardset is marked complete with the locality its layers share and the earliest
   * dates and lowest qualities they have; nothing else changes.
   */
  lemma CompletionTakesLayerStatistics(t: Tables, id: string, settings: Settings)
    requires CompleteStep(t, id, settings).Ok? && CompleteStep(t, id, settings).value.1
    ensures FindHazardSet(t.hazardsets, id).Some?
    ensures var after := CompleteStep(t, id, settings).value.0;
      var k := FindHazardSet(t.hazardsets, id).value;
      var own := LayersOf(t.layers, id);
      var h := after.hazardsets[k];
      |own| > 0
      && after == t.(hazardsets := after.hazardsets)
      && |after.hazardsets| == |t.hazardsets|
      && (forall j :: 0 <= j < |t.hazardsets| && j != k ==> after.hazardsets[j] == t.hazardsets[j])
      && h.complete && h.id == id && h.hazardtype == t.hazardsets[k].hazardtype
      && (forall m :: 0 <= m < |own| ==>
            h.local == own[m].local && h.dataDate <= own[m].dataDate && h.metadataDate <= own[m].metadataDate
            && h.calcQuality <= own[m].calcQuality && h.sciQuality <= own[m].sciQuality)
      && (exists m :: 0 <= m < |own| && h.dataDate == own[m].dataDate)
      && (exists m :: 0 <= m < |own| && h.metadataDate == own[m].metadataDate)
      && (exists m :: 0 <= m < |own| && h.calcQuality == own[m].calcQuality)
      && (exists m :: 0 <= m < |own| && h.sciQuality == own[m].sciQuality)
  {
    CompletingStep(t, id, settings);
    var k := FindHazardSet(t.hazardsets, id).value;
    CompletedStatistics(t.hazardsets[k], LayersOf(t.layers, id));
  }

  /** A hazardset is completed exactly when its required layers are all there and downloaded and agree on locality. */
  lemma CompletionCondition(t: Tables, id: string, settings: Settings)
    requires FindHazardSet(t.hazardsets, id).Some?
    requires SettingsOf(settings, t.hazardsets[FindHazardSet(t.hazardsets, id).value].hazardtype).Some?
    ensures var ts := SettingsOf(settings, t.hazardsets[FindHazardSet(t.hazardsets, id).value].hazardtype).value;
      var required := RequiredLayers(t.layers, id, ts.preprocessed == Some(true));
      var ready := required.Some? && forall j :: 0 <= j < |required.value| ==> required.value[j].downloaded;
      (CompleteStep(t, id, settings) == Ok((t, false)) <==> !ready)
      && (CompleteStep(t, id, settings).Err? <==> ready && !UniformLocality(LayersOf(t.layers, id)))
      && (CompleteStep(t, id, settings).Ok? && CompleteStep(t, id, settings).value.1 <==> ready && UniformLocality(LayersOf(t.layers, id)))
  {
    var k := FindHazardSet(t.hazardsets, id).value;
    var ts := SettingsOf(settings, t.hazardsets[k].hazardtype).value;
    var required := RequiredLayers(t.layers, id, ts.preprocessed == Some(true));
    if required.Some? && forall j :: 0 <= j < |required.value| ==> required.value[j].downloaded {
      assert required.value[0] in LayersOf(t.layers, id);
    }
  }

  /** Completing a completed hazardset again changes nothing. */
  lemma CompletionIsIdempotent(t: Tables, id: string, settings: Settings)
    requires CompleteStep(t, id, settings).Ok? && CompleteStep(t, id, settings).value.1
    ensures var after := CompleteStep(t, id, settings).value.0;
      CompleteStep(after, id, settings) == Ok((after, true))
  {
    CompletingStep(t, id, settings);
    CompletionCondition(t, id, settings);
    var after := CompleteStep(t, id, settings).value.0;
    var k := FindHazardSet(t.hazardsets, id).value;
    var own := LayersOf(t.layers, id);
    var h := Completed(t.hazardsets[k], own);
    FirstIndexUpdate(t.hazardsets, k, h, (x: HazardSet) => x.id == id);
    assert after.hazardsets == t.hazardsets[k := h] && after.layers == t.layers;
    assert FindHazardSet(after.hazardsets, id) == Some(k);
    assert after.hazardsets[k] == h;
    assert Completed(h, own) == h;
    assert after.hazardsets[k := Completed(after.hazardsets[k], own)] == after.hazardsets;
    CompletionCondition(after, id, settings);
    CompletingStep(after, id, settings);
  }

  /** A dry run leaves the database as it was. */
  lemma {:induction false} DryRunChangesNothing(t: Tables, ids: seq<string>, settings: Settings)
    ensures CompleteAll(t, ids, true, settings) == t
    decreases |ids|
  {
    if |ids| > 0 {
      DryRunChangesNothing(t, ids[1..], settings);
    }
  }

  /** Completion only writes hazardsets: layers, outputs, divisions and the published relation stay. */
  lemma {:induction false} CompletionOnlyTouchesHazardsets(t: Tables, ids: seq<string>, dryRun: bool, settings: Settings)
    ensures CompleteAll(t, ids, dryRun, settings) == t.(hazardsets := CompleteAll(t, ids, dryRun, settings).hazardsets)
    ensures |CompleteAll(t, ids, dryRun, settings).hazardsets| == |t.hazardsets|
    decreases |ids|
  {
    if |ids| > 0 {
      match CompleteStep(t, ids[0], settings)
      case Err(_) => CompletionOnlyTouchesHazardsets(t, ids[1..], dryRun, settings);
      case Ok((after, _)) => CompletionOnlyTouchesHazardsets(if dryRun then t else after, ids[1..], dryRun, settings);
    }
  }
}
