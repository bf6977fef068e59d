/**
 * The per-division band classifier of the threshold-based processing: a division's level is
 * decided from the windows that the HIG, MED and LOW rasters yield over the division.
 */
module Classifier {
  import opened Types

  /**
   * One pixel of a band window: its value, absent where the raster is masked (nodata), and whether
   * the rasterised division touches it.
   */
  datatype Pixel = Pixel(value: Option<int>, inside: bool)

  /** A window read from a raster, row by row. */
  type Window = seq<seq<Pixel>>

  /** The pixel survives both the nodata mask and the division mask. */
  predicate Counts(p: Pixel)
  {
    p.value.Some? && p.inside
  }

  /** The pixel counts and is hazardous: strictly above the threshold. */
  predicate Exceeds(p: Pixel, threshold: int)
  {
    Counts(p) && p.value.value > threshold
  }

  predicate HasValid(w: Window)
  {
    exists r, c | 0 <= r < |w| && 0 <= c < |w[r]| :: Counts(w[r][c])
  }

  predicate HasHot(w: Window, threshold: int)
  {
    exists r, c | 0 <= r < |w| && 0 <= c < |w[r]| :: Exceeds(w[r][c], threshold)
  }

  /** The window's shape has a zero extent. */
  predicate IsEmpty(w: Window)
  {
    |w| == 0 || |w[0]| == 0
  }

  /**
   * The maximum of the binarised, division-masked window: whether any pixel survives the masks
   * (the maximum is not itself masked) and whether any surviving pixel exceeds the threshold.
   */
  method ScanWindow(w: Window, threshold: int) returns (valid: bool, hot: bool)
    ensures valid <==> HasValid(w)
    ensures hot <==> HasHot(w, threshold)
  {
    valid, hot := false, false;
    var r := 0;
    while r < |w|
      invariant 0 <= r <= |w|
      invariant valid <==> exists i, c | 0 <= i < r && 0 <= c < |w[i]| :: Counts(w[i][c])
      invariant hot <==> exists i, c | 0 <= i < r && 0 <= c < |w[i]| :: Exceeds(w[i][c], threshold)
    {
      var c := 0;
      while c < |w[r]|
        invariant 0 <= c <= |w[r]|
        invariant valid <==> ((exists i, k | 0 <= i < r && 0 <= k < |w[i]| :: Counts(w[i][k]))
                               || (exists k | 0 <= k < c :: Counts(w[r][k])))
        invariant hot <==> ((exists i, k | 0 <= i < r && 0 <= k < |w[i]| :: Exceeds(w[i][k], threshold))
                             || (exists k | 0 <= k < c :: Exceeds(w[r][k], threshold)))
      {
        var p := w[r][c];
        if p.value.Some? && p.inside {
          valid := true;
          if p.value.value > threshold {
            hot := true;
          }
        }
        c := c + 1;
      }
      r := r + 1;
    }
  }

  /** The errors the processing of a hazardset can raise. */
  datatype ProcessError =
    | MissingHazardSet(id: string)
    | AlreadyProcessed(id: string)
    | MissingSettings(mnemonic: string)
    | LayerCount(level: HazardLevel, count: nat)  // `.one()` found no layer, or several
    | UnknownUnit(unit: Option<string>)           // `thresholds[layer.hazardunit]` raises

  /** One band as the band loop sees it: the level of its layer, its unit, and its window. */
  datatype Band = Band(level: HazardLevel, unit: Option<string>, window: Window)

  /** `thresholds[unit]`, or None where that lookup raises. */
  function ThresholdFor(thresholds: map<string, int>, unit: Option<string>): Option<int>
  {
    if unit.Some? && unit.value in thresholds then Some(thresholds[unit.value]) else None
  }

  /**
   * The band loop, with `acc` the level recorded so far.  A band is skipped when the division does
   * not meet the coverage or its window is empty; otherwise its threshold is looked up, a window
   * without any surviving pixel ends the loop, a hazardous pixel sets the band's level and ends
   * the loop, and surviving pixels that are all below the threshold record VLO if nothing is
   * recorded yet.
   */
  function Classify(intersects: bool, bands: seq<Band>, thresholds: map<string, int>, acc: Option<HazardLevel>)
    : (r: Result<Option<HazardLevel>, ProcessError>)
    ensures r.Err? ==> r.error.UnknownUnit? && exists k :: (0 <= k < |bands| && r.error.unit == bands[k].unit
      && ThresholdFor(thresholds, bands[k].unit).None?)
    decreases |bands|
  {
    if |bands| == 0 then Ok(acc)
    else if !intersects || IsEmpty(bands[0].window) then Classify(intersects, bands[1..], thresholds, acc)
    else match ThresholdFor(thresholds, bands[0].unit)
      case None => Err(UnknownUnit(bands[0].unit))
      case Some(t) =>
        if !HasValid(bands[0].window) then Ok(acc)
        else if HasHot(bands[0].window, t) then Ok(Some(bands[0].level))
        else Classify(intersects, bands[1..], thresholds, if acc.None? then Some(VLO) else acc)
  }

  /** The level a division gets from its bands, tried in the order given. */
  method ClassifyDivision(intersects: bool, bands: seq<Band>, thresholds: map<string, int>)
    returns (r: Result<Option<HazardLevel>, ProcessError>)
    ensures r == Classify(intersects, bands, thresholds, None)
  {
    var level: Option<HazardLevel> := None;
    var i := 0;
    while i < |bands|
      invariant 0 <= i <= |bands|
      invariant Classify(intersects, bands, thresholds, None) == Classify(intersects, bands[i..], thresholds, level)
    {
      var band := bands[i];
      assert bands[i..][0] == band && bands[i..][1..] == bands[i + 1..];
      if intersects && !IsEmpty(band.window) {
        var t := ThresholdFor(thresholds, band.unit);
        if t.None? {
          return Err(UnknownUnit(band.unit));
        }
        var valid, hot := ScanWindow(band.window, t.value);
        if !valid {
          break;
        }
        if level.None? {
          level := Some(VLO);
        }
        if hot {
          level := Some(band.level);
          break;
        }
      }
      i := i + 1;
    }
    return Ok(level);
  }

  // ----- what the band loop decides -----

  /** The loop reads the band and goes on to the next one. */
  predicate Passes(b: Band, thresholds: map<string, int>)
  {
    IsEmpty(b.window)
    || (ThresholdFor(thresholds, b.unit).Some? && HasValid(b.window)
        && !HasHot(b.window, ThresholdFor(thresholds, b.unit).value))
  }

  /** The band has a hazardous pixel in the division. */
  predicate Decides(b: Band, thresholds: map<string, int>)
  {
    !IsEmpty(b.window) && ThresholdFor(thresholds, b.unit).Some?
    && HasHot(b.window, ThresholdFor(thresholds, b.unit).value)
  }

  /** The band's window is not empty but every pixel is masked out. */
  predicate Blocks(b: Band, thresholds: map<string, int>)
  {
    !IsEmpty(b.window) && ThresholdFor(thresholds, b.unit).Some? && !HasValid(b.window)
  }

  /** The level recorded after passing `bands`, starting from `acc`. */
  function AfterPassing(bands: seq<Band>, acc: Option<HazardLevel>): Option<HazardLevel>
  {
    if acc.None? && forall j :: 0 <= j < |bands| ==> IsEmpty(bands[j].window) then None
    else if acc.None? then Some(VLO)
    else acc
  }

  /** A division that does not meet the coverage gets no level, whatever its windows. */
  lemma {:induction false} NoIntersectionNoLevel(bands: seq<Band>, thresholds: map<string, int>, acc: Option<HazardLevel>)
    ensures Classify(false, bands, thresholds, acc) == Ok(acc)
  {
    if |bands| > 0 {
      NoIntersectionNoLevel(bands[1..], thresholds, acc);
    }
  }

  /**
   * Severity precedence: the first band with a hazardous pixel, all bands before it having been
   * passed, sets the level, whatever the later bands hold.
   */
  lemma {:induction false} FirstHotBandWins(bands: seq<Band>, thresholds: map<string, int>, acc: Option<HazardLevel>, k: nat)
    requires k < |bands|
    requires forall j :: 0 <= j < k ==> Passes(bands[j], thresholds)
    requires Decides(bands[k], thresholds)
    ensures Classify(true, bands, thresholds, acc) == Ok(Some(bands[k].level))
  {
    if k > 0 {
      assert Passes(bands[0], thresholds);
      var next := if IsEmpty(bands[0].window) || acc.Some? then acc else Some(VLO);
      FirstHotBandWins(bands[1..], thresholds, next, k - 1);
    }
  }

  /**
   * A band whose window has no surviving pixel ends the loop: the level is what the bands before it
   * recorded, and the bands after it are never consulted.
   */
  lemma {:induction false} BlockedBandStops(bands: seq<Band>, thresholds: map<string, int>, acc: Option<HazardLevel>, k: nat)
    requires k < |bands|
    requires forall j :: 0 <= j < k ==> Passes(bands[j], thresholds)
    requires Blocks(bands[k], thresholds)
    ensures Classify(true, bands, thresholds, acc) == Ok(AfterPassing(bands[..k], acc))
  {
    if k == 0 {
      assert bands[..0] == [];
    } else {
      assert Passes(bands[0], thresholds);
      var next := if IsEmpty(bands[0].window) || acc.Some? then acc else Some(VLO);
      BlockedBandStops(bands[1..], thresholds, next, k - 1);
      assert bands[1..][..k - 1] == bands[1..k];
      AfterPassingStep(bands[..k], acc);
      assert bands[..k][1..] == bands[1..k];
    }
  }

  /**
   * When every band is passed, the level is VLO as soon as one band had surviving pixels, and a
   * level already recorded is never downgraded.
   */
  lemma {:induction false} AllPassedGivesVeryLow(bands: seq<Band>, thresholds: map<string, int>, acc: Option<HazardLevel>)
    requires forall j :: 0 <= j < |bands| ==> Passes(bands[j], thresholds)
    ensures Classify(true, bands, thresholds, acc) == Ok(AfterPassing(bands, acc))
  {
    if |bands| > 0 {
      var next := if IsEmpty(bands[0].window) || acc.Some? then acc else Some(VLO);
      AllPassedGivesVeryLow(bands[1..], thresholds, next);
      AfterPassingStep(bands, acc);
    }
  }

  /** A band with a window but no configured threshold for its unit raises. */
  lemma {:induction false} UnknownUnitRaises(bands: seq<Band>, thresholds: map<string, int>, acc: Option<HazardLevel>, k: nat)
    requires k < |bands|
    requires forall j :: 0 <= j < k ==> Passes(bands[j], thresholds)
    requires !IsEmpty(bands[k].window) && ThresholdFor(thresholds, bands[k].unit).None?
    ensures Classify(true, bands, thresholds, acc) == Err(UnknownUnit(bands[k].unit))
  {
    if k > 0 {
      assert Passes(bands[0], thresholds);
      var next := if IsEmpty(bands[0].window) || acc.Some? then acc else Some(VLO);
      UnknownUnitRaises(bands[1..], thresholds, next, k - 1);
    }
  }

  /** Passing the first band and then the rest records what passing them all records. */
  lemma AfterPassingStep(bands: seq<Band>, acc: Option<HazardLevel>)
    requires |bands| > 0
    ensures AfterPassing(bands[1..], if IsEmpty(bands[0].window) || acc.Some? then acc else Some(VLO))
         == AfterPassing(bands, acc)
  {
    if acc.None? && IsEmpty(bands[0].window) {
      assert (forall j :: 0 <= j < |bands| ==> IsEmpty(bands[j].window))
         <==> (forall j :: 0 <= j < |bands| - 1 ==> IsEmpty(bands[1..][j].window)) by {
        if forall j :: 0 <= j < |bands| - 1 ==> IsEmpty(bands[1..][j].window) {
          forall j | 0 <= j < |bands| ensures IsEmpty(bands[j].window) {
            if j > 0 { assert bands[j] == bands[1..][j - 1]; }
          }
        }
      }
    }
  }

  /**
   * The band loop never invents a level: the result is the level it started with, VLO, or the
   * level of one of the bands.
   */
  lemma {:induction false} LevelComesFromBands(intersects: bool, bands: seq<Band>, thresholds: map<string, int>, acc: Option<HazardLevel>)
    requires Classify(intersects, bands, thresholds, acc).Ok?
    ensures var l := Classify(intersects, bands, thresholds, acc).value;
      l == acc || l == Some(VLO) || exists k :: 0 <= k < |bands| && l == Some(bands[k].level)
  {
    if |bands| > 0 {
      var r := Classify(intersects, bands, thresholds, acc).value;
      var next := if acc.None? then Some(VLO) else acc;
      if !intersects || IsEmpty(bands[0].window) {
        LevelComesFromBands(intersects, bands[1..], thresholds, acc);
        if exists k :: 0 <= k < |bands| - 1 && r == Some(bands[1..][k].level) {
          var k :| 0 <= k < |bands| - 1 && r == Some(bands[1..][k].level);
          assert r == Some(bands[k + 1].level);
        }
      } else if ThresholdFor(thresholds, bands[0].unit).Some? && HasValid(bands[0].window)
             && !HasHot(bands[0].window, ThresholdFor(thresholds, bands[0].unit).value) {
        LevelComesFromBands(intersects, bands[1..], thresholds, next);
        if exists k :: 0 <= k < |bands| - 1 && r == Some(bands[1..][k].level) {
          var k :| 0 <= k < |bands| - 1 && r == Some(bands[1..][k].level);
          assert r == Some(bands[k + 1].level);
        }
      }
    }
  }
}
