/**
 * The harvester: it reads the layer objects of the catalog, checks each one, maps its return
 * period to a hazard level, and creates or replaces the Layer (and, when new, the HazardSet) it
 * describes.
 */
module Harvesting {
  import opened Types
  import opened Schema
  import opened Titles

  /**
   * A layer object of the catalog's layer listing.  An empty string stands for an empty or absent
   * text field; the period, unit, dates and qualities are None when absent.
   */
  datatype GeonodeObject = GeonodeObject(
    id: int,
    title: string,
    hazardSet: string,
    hazardType: string,
    hazardPeriod: Option<int>,
    hazardUnit: Option<string>,
    srid: string,
    dataUpdateDate: Option<int>,
    metadataUpdateDate: Option<int>,
    calcQuality: Option<real>,
    sciQuality: Option<real>,
    downloadUrl: string)

  /** Why an object is skipped: each is a `return False` of the harvester. */
  datatype Reason =
    | NoHazardSet | NoHazardType | UnsupportedHazardType | NoProcessConfiguration | HasReturnPeriod
    | NoHazardLevel | EmptyUnit | WrongSrid | NoCalcQuality | NoSciQuality | NoDownloadUrl
    | SameGeonodeLayer | PreferredReturnPeriod

  /** The exceptions the harvester raises on some objects. */
  datatype Raise =
    | PeriodNotInteger  // `int(None)` on an absent return period
    | NoLevelToReport   // the log line of a replacement reads the level of a preprocessed layer, which has none

  datatype Verdict = Harvested | Rejected(reason: Reason) | Raised(error: Raise)

  const Wgs84: string := "EPSG:4326"
  const GlobalMarker: string := "GLOBAL"

  /** The mnemonic and settings of the first configured hazard type the catalog calls `name`. */
  function HazardtypeFromGeonode(settings: Settings, name: string): (r: Option<(string, TypeSettings)>)
    ensures r.None? <==> forall k :: 0 <= k < |settings| ==> settings[k].1.geonodeType != name
    ensures r.Some? ==> exists k :: (0 <= k < |settings| && settings[k] == r.value && r.value.1.geonodeType == name
      && forall j :: 0 <= j < k ==> settings[j].1.geonodeType != name)
  {
    match FirstIndex(settings, (e: (string, TypeSettings)) => e.1.geonodeType == name)
    case None => None
    case Some(k) => Some(settings[k])
  }

  /** Python's `part in s` on strings. */
  predicate Contains(s: string, part: string)
    decreases |s|
  {
    |part| <= |s| && (s[..|part|] == part || Contains(s[1..], part))
  }

  /** A hazardset is local unless its id contains GLOBAL. */
  predicate IsLocal(hazardsetId: string)
  {
    !Contains(hazardsetId, GlobalMarker)
  }

  /** Python's truth value of a period: absent and zero are false. */
  predicate Truthy(period: Option<int>)
  {
    period.Some? && period.value != 0
  }

  /** Python's truth value of a quality: absent and zero are false. */
  predicate Falsy(quality: Option<real>)
  {
    quality.None? || quality.value == 0.0
  }

  /** `int(float(x))`: truncation toward zero. */
  function Trunc(x: real): (n: int)
    ensures 0.0 <= x ==> n as real <= x < n as real + 1.0
    ensures x < 0.0 ==> n as real - 1.0 < x <= n as real
  {
    if x >= 0.0 then x.Floor else -((-x).Floor)
  }

  // ----- from return period to hazard level -----

  predicate RangeMatches(rule: PeriodRule, period: int)
  {
    rule.Between? && rule.lo <= period <= rule.hi
  }

  predicate ScalarMatches(rule: PeriodRule, period: int)
  {
    rule.Exactly? && rule.period == period
  }

  /** The configured rules in the order the harvester tries them. */
  function ScanTable(rp: ReturnPeriods): seq<(HazardLevel, PeriodRule)>
  {
    [(LOW, rp.low), (MED, rp.med), (HIG, rp.hig)]
  }

  /**
   * The level loop with `acc` the level found so far: a matching range sets its level and ends the
   * loop, a matching single period sets its level and the loop goes on.
   */
  function ScanPeriods(period: int, rules: seq<(HazardLevel, PeriodRule)>, acc: Option<HazardLevel>): Option<HazardLevel>
    decreases |rules|
  {
    if |rules| == 0 then acc
    else if RangeMatches(rules[0].1, period) then Some(rules[0].0)
    else ScanPeriods(period, rules[1..], if ScalarMatches(rules[0].1, period) then Some(rules[0].0) else acc)
  }

  /** The level of a return period, by the loop over LOW, MED and HIG. */
  method LevelForPeriod(period: int, rp: ReturnPeriods) returns (level: Option<HazardLevel>)
    ensures level == ScanPeriods(period, ScanTable(rp), None)
  {
    var rules := ScanTable(rp);
    level := None;
    var i := 0;
    while i < |rules|
      invariant 0 <= i <= |rules|
      invariant ScanPeriods(period, rules, None) == ScanPeriods(period, rules[i..], level)
    {
      var rule := rules[i].1;
      assert rules[i..][0] == rules[i] && rules[i..][1..] == rules[i + 1..];
      if rule.Between? {
        if period >= rule.lo && period <= rule.hi {
          level := Some(rules[i].0);
          break;
        }
      } else {
        if period == rule.period {
          level := Some(rules[i].0);
        }
      }
      i := i + 1;
    }
  }

  /** The first matching range decides, whatever single periods matched before it. */
  lemma {:induction false} RangeMatchWins(period: int, rules: seq<(HazardLevel, PeriodRule)>, acc: Option<HazardLevel>, k: nat)
    requires k < |rules| && RangeMatches(rules[k].1, period)
    requires forall j :: 0 <= j < k ==> !RangeMatches(rules[j].1, period)
    ensures ScanPeriods(period, rules, acc) == Some(rules[k].0)
    decreases k
  {
    if k > 0 {
      RangeMatchWins(period, rules[1..], if ScalarMatches(rules[0].1, period) then Some(rules[0].0) else acc, k - 1);
    }
  }

  /** Without a matching range, the last matching single period decides. */
  lemma {:induction false} LastScalarMatchWins(period: int, rules: seq<(HazardLevel, PeriodRule)>, acc: Option<HazardLevel>, k: nat)
    requires k < |rules| && ScalarMatches(rules[k].1, period)
    requires forall j :: 0 <= j < |rules| ==> !RangeMatches(rules[j].1, period)
    requires forall j :: k < j < |rules| ==> !ScalarMatches(rules[j].1, period)
    ensures ScanPeriods(period, rules, acc) == Some(rules[k].0)
    decreases k
  {
    var next := if ScalarMatches(rules[0].1, period) then Some(rules[0].0) else acc;
    if k > 0 {
      LastScalarMatchWins(period, rules[1..], next, k - 1);
    } else {
      NothingMatchesKeepsLevel(period, rules[1..], next);
    }
  }

  /** A period that no rule matches leaves the level as it was. */
  lemma {:induction false} NothingMatchesKeepsLevel(period: int, rules: seq<(HazardLevel, PeriodRule)>, acc: Option<HazardLevel>)
    requires forall j :: 0 <= j < |rules| ==> !RangeMatches(rules[j].1, period) && !ScalarMatches(rules[j].1, period)
    ensures ScanPeriods(period, rules, acc) == acc
    decreases |rules|
  {
    if |rules| > 0 {
      NothingMatchesKeepsLevel(period, rules[1..], acc);
    }
  }

  /** The level found is that of a rule the period matches; none is found only if no rule matches. */
  lemma {:induction false} LevelMatchesItsRule(period: int, rules: seq<(HazardLevel, PeriodRule)>)
    ensures ScanPeriods(period, rules, None).None? <==>
      forall j :: 0 <= j < |rules| ==> !RangeMatches(rules[j].1, period) && !ScalarMatches(rules[j].1, period)
    ensures ScanPeriods(period, rules, None).Some? ==> exists j :: (0 <= j < |rules|
      && rules[j].0 == ScanPeriods(period, rules, None).value
      && (RangeMatches(rules[j].1, period) || ScalarMatches(rules[j].1, period)))
  {
    ScanSound(period, rules, None);
    if forall j :: 0 <= j < |rules| ==> !RangeMatches(rules[j].1, period) && !ScalarMatches(rules[j].1, period) {
      NothingMatchesKeepsLevel(period, rules, None);
    }
  }

  lemma {:induction false} ScanSound(period: int, rules: seq<(HazardLevel, PeriodRule)>, acc: Option<HazardLevel>)
    ensures var r := ScanPeriods(period, rules, acc);
      r == acc || exists j :: (0 <= j < |rules| && r == Some(rules[j].0)
        && (RangeMatches(rules[j].1, period) || ScalarMatches(rules[j].1, period)))
    ensures acc.None? && ScanPeriods(period, rules, acc).None? ==>
      forall j :: 0 <= j < |rules| ==> !RangeMatches(rules[j].1, period) && !ScalarMatches(rules[j].1, period)
    decreases |rules|
  {
    if |rules| > 0 && !RangeMatches(rules[0].1, period) {
      var next := if ScalarMatches(rules[0].1, period) then Some(rules[0].0) else acc;
      ScanSound(period, rules[1..], next);
      var r := ScanPeriods(period, rules, acc);
      if r != next {
        var j :| 0 <= j < |rules[1..]| && r == Some(rules[1..][j].0)
          && (RangeMatches(rules[1..][j].1, period) || ScalarMatches(rules[1..][j].1, period));
        assert rules[1..][j] == rules[j + 1];
      }
      if acc.None? && r.None? {
        forall j | 0 <= j < |rules| ensures !RangeMatches(rules[j].1, period) && !ScalarMatches(rules[j].1, period) {
          if j > 0 {
            assert rules[j] == rules[1..][j - 1];
          }
        }
      }
    }
  }

  // ----- checking an object -----

  /** What the checks make of an accepted object: the fields of its Layer and HazardSet. */
  datatype Draft = Draft(
    hazardsetId: string,
    hazardtype: string,
    preprocessed: bool,
    level: Option<HazardLevel>,
    period: Option<int>,
    unit: Option<string>,
    dataDate: int,
    metadataDate: int,
    calcQuality: int,
    sciQuality: int,
    local: bool,
    geonodeId: int,
    downloadUrl: string)

  function OrNow(date: Option<int>, now: int): int
  {
    if date.Some? then date.value else now
  }

  /**
   * The checks of the harvester in their order, before it touches the database: the accepted
   * object's draft, or the verdict that ends its harvest.  `now` is the clock that replaces an
   * absent date.
   */
  function Vet(obj: GeonodeObject, settings: Settings, now: int): (r: Result<Draft, Verdict>)
    ensures r.Err? ==> !r.error.Harvested?
    ensures r.Ok? ==> (obj.hazardSet != "" && obj.hazardType != "" && obj.srid == Wgs84 && obj.downloadUrl != ""
      && !Falsy(obj.calcQuality) && !Falsy(obj.sciQuality))
    ensures r.Ok? ==> (r.value.hazardsetId == obj.hazardSet && r.value.geonodeId == obj.id
      && r.value.local == IsLocal(obj.hazardSet) && r.value.downloadUrl == obj.downloadUrl)
    ensures r.Ok? && r.value.preprocessed ==> (r.value.level.None? && r.value.period.None? && r.value.unit.None?
      && !Truthy(obj.hazardPeriod))
    ensures r.Ok? && !r.value.preprocessed ==> (r.value.level.Some? && r.value.level.value != VLO
      && r.value.period == obj.hazardPeriod && r.value.period.Some? && r.value.unit == obj.hazardUnit && obj.hazardUnit != Some(""))
    ensures r.Ok? ==> var entry := HazardtypeFromGeonode(settings, obj.hazardType);
      entry.Some? && r.value.hazardtype == entry.value.0 && entry.value.1.preprocessed == Some(r.value.preprocessed)
      && (!r.value.preprocessed ==> (obj.hazardPeriod.Some?
            && r.value.level == ScanPeriods(obj.hazardPeriod.value, ScanTable(entry.value.1.returnPeriods), None)))
    ensures r.Ok? ==> (r.value.dataDate == OrNow(obj.dataUpdateDate, now) && r.value.metadataDate == OrNow(obj.metadataUpdateDate, now)
      && obj.calcQuality.Some? && r.value.calcQuality == Trunc(obj.calcQuality.value)
      && obj.sciQuality.Some? && r.value.sciQuality == Trunc(obj.sciQuality.value))
    ensures r == Err(Raised(PeriodNotInteger)) ==> obj.hazardPeriod.None?
  {
    if obj.hazardSet == "" then Err(Rejected(NoHazardSet))
    else if obj.hazardType == "" then Err(Rejected(NoHazardType))
    else match HazardtypeFromGeonode(settings, obj.hazardType)
      case None => Err(Rejected(UnsupportedHazardType))
      case Some(entry) =>
        var ts := entry.1;
        if ts.preprocessed.None? then Err(Rejected(NoProcessConfiguration))
        else if ts.preprocessed.value && Truthy(obj.hazardPeriod) then Err(Rejected(HasReturnPeriod))
        else if !ts.preprocessed.value && obj.hazardPeriod.None? then Err(Raised(PeriodNotInteger))
        else
          var pre := ts.preprocessed.value;
          var level := if pre then None else ScanPeriods(obj.hazardPeriod.value, ScanTable(ts.returnPeriods), None);
          if !pre && level.None? then Err(Rejected(NoHazardLevel))
          else if !pre && obj.hazardUnit == Some("") then Err(Rejected(EmptyUnit))
          else if obj.srid != Wgs84 then Err(Rejected(WrongSrid))
          else if Falsy(obj.calcQuality) then Err(Rejected(NoCalcQuality))
          else if Falsy(obj.sciQuality) then Err(Rejected(NoSciQuality))
          else if obj.downloadUrl == "" then Err(Rejected(NoDownloadUrl))
          else
            assert !pre ==> level.value != VLO by {
              if !pre {
                LevelMatchesItsRule(obj.hazardPeriod.value, ScanTable(ts.returnPeriods));
              }
            }
            Ok(Draft(obj.hazardSet, entry.0, pre, level, if pre then None else obj.hazardPeriod,
                     if pre then None else obj.hazardUnit,
                     OrNow(obj.dataUpdateDate, now), OrNow(obj.metadataUpdateDate, now),
                     Trunc(obj.calcQuality.value), Trunc(obj.sciQuality.value),
                     IsLocal(obj.hazardSet), obj.id, obj.downloadUrl))
  }

  /**
   * The conditions an object must meet to be harvested, in no particular order: a hazard set, a
   * configured type with a process configuration, no return period for a preprocessed type and
   * otherwise one that maps to a level, a unit that is not empty, WGS 84, both qualities and a URL.
   * The dates play no part.
   */
  predicate Acceptable(obj: GeonodeObject, settings: Settings)
  {
    var entry := HazardtypeFromGeonode(settings, obj.hazardType);
    obj.hazardSet != "" && obj.hazardType != "" && entry.Some? && entry.value.1.preprocessed.Some?
    && (if entry.value.1.preprocessed.value then !Truthy(obj.hazardPeriod)
        else (obj.hazardPeriod.Some? && obj.hazardUnit != Some("")
          && ScanPeriods(obj.hazardPeriod.value, ScanTable(entry.value.1.returnPeriods), None).Some?))
    && obj.srid == Wgs84 && !Falsy(obj.calcQuality) && !Falsy(obj.sciQuality) && obj.downloadUrl != ""
  }

  /** An object is accepted exactly when it meets every condition, whatever its dates and the clock. */
  lemma VetAcceptsExactly(obj: GeonodeObject, settings: Settings, now: int)
    ensures Vet(obj, settings, now).Ok? <==> Acceptable(obj, settings)
  {
  }

  /**
   * An object naming a type that is not configured, or one configured without a process
   * configuration, is skipped for that reason; so is a period that maps to no level.
   */
  lemma VetRejectsUnconfigured(obj: GeonodeObject, settings: Settings, now: int)
    requires obj.hazardSet != "" && obj.hazardType != ""
    ensures var entry := HazardtypeFromGeonode(settings, obj.hazardType);
      (entry.None? ==> Vet(obj, settings, now) == Err(Rejected(UnsupportedHazardType)))
      && (entry.Some? && entry.value.1.preprocessed.None? ==> Vet(obj, settings, now) == Err(Rejected(NoProcessConfiguration)))
      && (entry.Some? && entry.value.1.preprocessed == Some(false) && obj.hazardPeriod.Some?
          && ScanPeriods(obj.hazardPeriod.value, ScanTable(entry.value.1.returnPeriods), None).None?
          ==> Vet(obj, settings, now) == Err(Rejected(NoHazardLevel)))
  {
  }

  // ----- storing an accepted object -----

  /** A new hazardset: only its id and type are known until it is completed. */
  function NewHazardSet(id: string, hazardtype: string): HazardSet
  {
    HazardSet(id, hazardtype, false, false, false, 0, 0, 0, 0)
  }

  /** The layer an accepted object replaces: the first of its hazardset, at its level unless preprocessed. */
  predicate Replaces(d: Draft, l: Layer)
  {
    l.hazardsetId == d.hazardsetId && (d.preprocessed || l.level == d.level)
  }

  /** Python 2's `a > b`, where None is smaller than every number. */
  predicate Py2Greater(a: Option<int>, b: Option<int>)
  {
    a.Some? && (b.None? || a.value > b.value)
  }

  /** The layer's fields after the harvest; a replaced layer keeps its download flag. */
  function Filled(d: Draft, downloaded: bool): Layer
  {
    Layer(d.hazardsetId, d.level, d.period, d.unit, d.dataDate, d.metadataDate, d.geonodeId, d.downloadUrl,
          d.calcQuality, d.sciQuality, d.local, downloaded)
  }

  function WithHazardSet(t: Tables, d: Draft): Tables
  {
    if FindHazardSet(t.hazardsets, d.hazardsetId).None? then t.(hazardsets := t.hazardsets + [NewHazardSet(d.hazardsetId, d.hazardtype)])
    else t
  }

  /** The database part of the harvest of an accepted object: the session afterwards and the verdict. */
  function Store(t: Tables, d: Draft): (Tables, Verdict)
  {
    var t1 := WithHazardSet(t, d);
    match FirstIndex(t1.layers, (l: Layer) => Replaces(d, l))
    case None => (t1.(layers := t1.layers + [Filled(d, false)]), Harvested)
    case Some(k) =>
      var existing := t1.layers[k];
      if d.geonodeId == existing.geonodeId then (t1, Rejected(SameGeonodeLayer))
      else if Py2Greater(d.period, existing.returnPeriod) then (t1, Rejected(PreferredReturnPeriod))
      else if d.level.None? then (t1, Raised(NoLevelToReport))
      else (t1.(layers := t1.layers[k := Filled(d, existing.downloaded)]), Harvested)
  }

  /** The harvest of one object on session tables `t`: the session afterwards and the verdict. */
  function HarvestStep(t: Tables, obj: GeonodeObject, settings: Settings, now: int): (Tables, Verdict)
  {
    match Vet(obj, settings, now)
    case Err(v) => (t, v)
    case Ok(d) => Store(t, d)
  }

  /** The checks of one catalog object, in the order the harvest makes them; changes nothing. */
  method VetObject(obj: GeonodeObject, settings: Settings, now: int) returns (r: Result<Draft, Verdict>)
    ensures r == Vet(obj, settings, now)
  {
    if obj.hazardSet == "" {
      return Err(Rejected(NoHazardSet));
    }
    if obj.hazardType == "" {
      return Err(Rejected(NoHazardType));
    }
    var entry := HazardtypeFromGeonode(settings, obj.hazardType);
    if entry.None? {
      return Err(Rejected(UnsupportedHazardType));
    }
    var mnemonic, ts := entry.value.0, entry.value.1;
    var local := IsLocal(obj.hazardSet);
    if ts.preprocessed.None? {
      return Err(Rejected(NoProcessConfiguration));
    }
    var preprocessed := ts.preprocessed.value;
    var level: Option<HazardLevel> := None;
    var period: Option<int> := None;
    var unit: Option<string> := None;
    if preprocessed {
      if Truthy(obj.hazardPeriod) {
        return Err(Rejected(HasReturnPeriod));
      }
    } else {
      if obj.hazardPeriod.None? {
        return Err(Raised(PeriodNotInteger));
      }
      period := obj.hazardPeriod;
      level := LevelForPeriod(period.value, ts.returnPeriods);
      if level.None? {
        return Err(Rejected(NoHazardLevel));
      }
      if obj.hazardUnit == Some("") {
        return Err(Rejected(EmptyUnit));
      }
      unit := obj.hazardUnit;
    }
    if obj.srid != Wgs84 {
      return Err(Rejected(WrongSrid));
    }
    var dataDate := OrNow(obj.dataUpdateDate, now);
    var metadataDate := OrNow(obj.metadataUpdateDate, now);
    if Falsy(obj.calcQuality) {
      return Err(Rejected(NoCalcQuality));
    }
    var calcQuality := Trunc(obj.calcQuality.value);
    if Falsy(obj.sciQuality) {
      return Err(Rejected(NoSciQuality));
    }
    var sciQuality := Trunc(obj.sciQuality.value);
    if obj.downloadUrl == "" {
      return Err(Rejected(NoDownloadUrl));
    }
    return Ok(Draft(obj.hazardSet, mnemonic, preprocessed, level, period, unit, dataDate, metadataDate,
                    calcQuality, sciQuality, local, obj.id, obj.downloadUrl));
  }

  /** Writes an accepted object to the session: its hazardset when missing, then its layer. */
  method StoreDraft(db: Session, d: Draft) returns (v: Verdict)
    modifies db
    ensures (db.Snapshot(), v) == Store(old(db.Snapshot()), d)
  {
    if FindHazardSet(db.hazardsets, d.hazardsetId).None? {
      db.hazardsets := db.hazardsets + [NewHazardSet(d.hazardsetId, d.hazardtype)];
    }
    var k := FirstIndex(db.layers, (l: Layer) => Replaces(d, l));
    if k.None? {
      db.layers := db.layers + [Filled(d, false)];
      return Harvested;
    }
    var existing := db.layers[k.value];
    if d.geonodeId == existing.geonodeId {
      return Rejected(SameGeonodeLayer);
    }
    if Py2Greater(d.period, existing.returnPeriod) {
      return Rejected(PreferredReturnPeriod);
    }
    if d.level.None? {
      return Raised(NoLevelToReport);
    }
    db.layers := db.layers[k.value := Filled(d, existing.downloaded)];
    return Harvested;
  }

  /** Harvests one object into the session. */
  method HarvestLayer(db: Session, obj: GeonodeObject, settings: Settings, now: int) returns (v: Verdict)
    modifies db
    ensures (db.Snapshot(), v) == HarvestStep(old(db.Snapshot()), obj, settings, now)
  {
    var vetted := VetObject(obj, settings, now);
    if vetted.Err? {
      return vetted.error;
    }
    v := StoreDraft(db, vetted.value);
  }

  // ----- properties of one harvest -----

  /** Every layer belongs to a hazardset of the table. */
  predicate LayersHaveHazardSets(t: Tables)
  {
    forall k :: 0 <= k < |t.layers| ==> FindHazardSet(t.hazardsets, t.layers[k].hazardsetId).Some?
  }

  /** A skipped object leaves the session as it was, provided every layer has its hazardset. */
  lemma RejectionWritesNothing(t: Tables, obj: GeonodeObject, settings: Settings, now: int)
    requires LayersHaveHazardSets(t)
    requires HarvestStep(t, obj, settings, now).1.Rejected?
    ensures HarvestStep(t, obj, settings, now).0 == t
  {
    var vetted := Vet(obj, settings, now);
    if vetted.Ok? {
      var d := vetted.value;
      var k := FirstIndex(WithHazardSet(t, d).layers, (l: Layer) => Replaces(d, l));
      if FindHazardSet(t.hazardsets, d.hazardsetId).None? {
        assert false;
      }
    }
  }

  /** Creating the draft's hazardset when missing keeps every existing one findable. */
  lemma WithHazardSetKeepsAttached(t: Tables, d: Draft)
    requires LayersHaveHazardSets(t)
    ensures var t1 := WithHazardSet(t, d);
      t1.layers == t.layers && LayersHaveHazardSets(t1) && FindHazardSet(t1.hazardsets, d.hazardsetId).Some?
  {
    var t1 := WithHazardSet(t, d);
    if FindHazardSet(t.hazardsets, d.hazardsetId).None? {
      forall id | FindHazardSet(t.hazardsets, id).Some?
        ensures FindHazardSet(t1.hazardsets, id).Some?
      {
        var j := FindHazardSet(t.hazardsets, id).value;
        assert t1.hazardsets[j] == t.hazardsets[j];
      }
      assert t1.hazardsets[|t.hazardsets|].id == d.hazardsetId;
    }
  }

  /** Storing a draft only adds or replaces layers of the draft's hazardset. */
  lemma StoreShape(t: Tables, d: Draft)
    ensures var after := Store(t, d).0;
      after.hazardsets == WithHazardSet(t, d).hazardsets
      && |after.layers| >= |t.layers|
      && forall k :: 0 <= k < |after.layers| ==>
           after.layers[k].hazardsetId == d.hazardsetId || (k < |t.layers| && after.layers[k] == t.layers[k])
  {
  }

  /** Storing a draft keeps every layer attached to a hazardset. */
  lemma StoreKeepsLayersAttached(t: Tables, d: Draft)
    requires LayersHaveHazardSets(t)
    ensures LayersHaveHazardSets(Store(t, d).0)
  {
    var t1 := WithHazardSet(t, d);
    WithHazardSetKeepsAttached(t, d);
    StoreShape(t, d);
  }

  /** A harvest keeps every layer attached to a hazardset. */
  lemma HarvestKeepsLayersAttached(t: Tables, obj: GeonodeObject, settings: Settings, now: int)
    requires LayersHaveHazardSets(t)
    ensures LayersHaveHazardSets(HarvestStep(t, obj, settings, now).0)
  {
    var vetted := Vet(obj, settings, now);
    if vetted.Ok? {
      StoreKeepsLayersAttached(t, vetted.value);
    }
  }

  /** A stored draft's hazardset exists, and the first layer it replaces is the draft's. */
  lemma StoreFindsItsLayer(t: Tables, d: Draft)
    requires Store(t, d).1.Harvested?
    ensures var after := Store(t, d).0;
      FindHazardSet(after.hazardsets, d.hazardsetId).Some?
      && exists k :: (0 <= k < |after.layers| && after.layers[k] == Filled(d, after.layers[k].downloaded)
           && forall j :: 0 <= j < k ==> !Replaces(d, after.layers[j]))
  {
    var t1 := WithHazardSet(t, d);
    if FindHazardSet(t.hazardsets, d.hazardsetId).None? {
      assert t1.hazardsets[|t.hazardsets|].id == d.hazardsetId;
    }
    var after := Store(t, d).0;
    match FirstIndex(t1.layers, (l: Layer) => Replaces(d, l))
    case None =>
      assert after.layers[|t1.layers|] == Filled(d, false);
    case Some(k) =>
      assert after.layers[k] == Filled(d, t1.layers[k].downloaded);
  }

  /** A harvested object's layer is in the session, with the object's catalog id. */
  lemma HarvestedLayerIsStored(t: Tables, obj: GeonodeObject, settings: Settings, now: int)
    requires HarvestStep(t, obj, settings, now).1.Harvested?
    ensures Vet(obj, settings, now).Ok?
    ensures var after := HarvestStep(t, obj, settings, now).0;
      var d := Vet(obj, settings, now).value;
      FindHazardSet(after.hazardsets, obj.hazardSet).Some?
      && exists k :: (0 <= k < |after.layers| && after.layers[k].hazardsetId == obj.hazardSet
           && after.layers[k].geonodeId == obj.id && after.layers[k].level == d.level
           && after.layers[k].downloadUrl == obj.downloadUrl
           && forall j :: 0 <= j < k ==> !Replaces(d, after.layers[j]))
  {
    StoreFindsItsLayer(t, Vet(obj, settings, now).value);
  }

  /** Storing the same draft again finds its own layer and skips it. */
  lemma StoreTwiceIsSkipped(t: Tables, d: Draft)
    requires Store(t, d).1.Harvested?
    ensures Store(Store(t, d).0, d) == (Store(t, d).0, Rejected(SameGeonodeLayer))
  {
    StoreFindsItsLayer(t, d);
    var after := Store(t, d).0;
    assert WithHazardSet(after, d) == after;
    var k :| 0 <= k < |after.layers| && after.layers[k] == Filled(d, after.layers[k].downloaded)
      && forall j :: 0 <= j < k ==> !Replaces(d, after.layers[j]);
    FirstIndexAt(after.layers, (l: Layer) => Replaces(d, l), k);
  }

  /**
   * The replacement rule, for the first layer of the draft's hazardset (at its level unless
   * preprocessed): the same catalog layer is skipped, a larger return period than the stored one is
   * skipped in favour of the stored one, and otherwise the layer is overwritten in place, keeping
   * its download flag.  Only the hazardset lookup or creation happens before a skip.
   */
  lemma StoreReplacesFirstMatch(t: Tables, d: Draft, k: nat)
    requires k < |t.layers| && Replaces(d, t.layers[k])
    requires forall j :: 0 <= j < k ==> !Replaces(d, t.layers[j])
    ensures var (after, v) := Store(t, d);
      var existing := t.layers[k];
      var t1 := WithHazardSet(t, d);
      (d.geonodeId == existing.geonodeId ==> after == t1 && v == Rejected(SameGeonodeLayer))
      && (d.geonodeId != existing.geonodeId && Py2Greater(d.period, existing.returnPeriod) ==>
            after == t1 && v == Rejected(PreferredReturnPeriod))
      && (d.geonodeId != existing.geonodeId && !Py2Greater(d.period, existing.returnPeriod) && d.level.None? ==>
            after == t1 && v == Raised(NoLevelToReport))
      && (d.geonodeId != existing.geonodeId && !Py2Greater(d.period, existing.returnPeriod) && d.level.Some? ==>
            after == t1.(layers := t.layers[k := Filled(d, existing.downloaded)]) && v == Harvested)
  {
    assert WithHazardSet(t, d).layers == t.layers;
    FirstIndexAt(t.layers, (l: Layer) => Replaces(d, l), k);
  }

  /** With no layer to replace, a new layer is appended, not yet downloaded. */
  lemma StoreAppendsWithoutMatch(t: Tables, d: Draft)
    requires forall j :: 0 <= j < |t.layers| ==> !Replaces(d, t.layers[j])
    ensures Store(t, d) == (WithHazardSet(t, d).(layers := t.layers + [Filled(d, false)]), Harvested)
  {
    assert WithHazardSet(t, d).layers == t.layers;
  }

  /** Harvesting the same object again skips it and changes nothing. */
  lemma ReharvestIsSkipped(t: Tables, obj: GeonodeObject, settings: Settings, now: int)
    requires HarvestStep(t, obj, settings, now).1.Harvested?
    ensures var after := HarvestStep(t, obj, settings, now).0;
      HarvestStep(after, obj, settings, now) == (after, Rejected(SameGeonodeLayer))
  {
    StoreTwiceIsSkipped(t, Vet(obj, settings, now).value);
  }

  // ----- the harvest of the whole catalog -----

  /** The tables after the purge of a forced harvest. */
  function Cleared(t: Tables): Tables
  {
    t.(outputs := [], layers := [], hazardsets := [])
  }

  /**
   * The loop over the objects, with `committed` what the database holds and `session` the
   * session's view: a harvested object is committed, or aborted on a dry run; a skipped one
   * leaves its changes pending; a raised exception ends the harvest with the pending changes lost.
   */
  function HarvestAll(committed: Tables, session: Tables, objects: seq<GeonodeObject>, dryRun: bool,
                      settings: Settings, now: int): (Tables, Outcome<Raise>)
    decreases |objects|
  {
    if |objects| == 0 then (committed, Pass)
    else
      var (after, v) := HarvestStep(session, objects[0], settings, now);
      match v
      case Harvested =>
        if dryRun then HarvestAll(committed, committed, objects[1..], dryRun, settings, now)
        else HarvestAll(after, after, objects[1..], dryRun, settings, now)
      case Rejected(_) => HarvestAll(committed, after, objects[1..], dryRun, settings, now)
      case Raised(e) => (committed, Fail(e))
  }

  lemma HarvestAllUnfold(committed: Tables, session: Tables, objects: seq<GeonodeObject>, dryRun: bool,
                         settings: Settings, now: int)
    requires |objects| > 0
    ensures var (after, v) := HarvestStep(session, objects[0], settings, now);
      var next := if v.Harvested? && !dryRun then after else committed;
      HarvestAll(committed, session, objects, dryRun, settings, now)
      == if v.Raised? then (committed, Fail(v.error))
         else HarvestAll(next, if v.Harvested? then next else after, objects[1..], dryRun, settings, now)
  {
  }

  function ByTitle(o: GeonodeObject): string { o.title }

  /** The database a harvest starts from: purged when forced, unless on a dry run. */
  function HarvestStart(t: Tables, force: bool, dryRun: bool): Tables
  {
    if force && !dryRun then Cleared(t) else t
  }

  /**
   * Harvests the catalog objects in title order.  What the database holds at the end is what was
   * committed; changes still pending are lost with the session.  `now` is the clock.
   */
  method Harvest(db: Session, objects: seq<GeonodeObject>, force: bool, dryRun: bool, settings: Settings, now: int)
    returns (r: Outcome<Raise>)
    modifies db
    ensures var start := HarvestStart(old(db.Snapshot()), force, dryRun);
      (db.Snapshot(), r) == HarvestAll(start, start, SortBy(objects, ByTitle), dryRun, settings, now)
  {
    if force {
      var saved := db.Snapshot();
      db.outputs := [];
      db.layers := [];
      db.hazardsets := [];
      if dryRun {
        db.Restore(saved);
      }
    }
    var committed := db.Snapshot();
    var sorted := SortBy(objects, ByTitle);
    var i := 0;
    while i < |sorted|
      invariant 0 <= i <= |sorted|
      invariant HarvestAll(HarvestStart(old(db.Snapshot()), force, dryRun), HarvestStart(old(db.Snapshot()), force, dryRun),
                           sorted, dryRun, settings, now)
             == HarvestAll(committed, db.Snapshot(), sorted[i..], dryRun, settings, now)
    {
      assert sorted[i..][0] == sorted[i] && sorted[i..][1..] == sorted[i + 1..];
      HarvestAllUnfold(committed, db.Snapshot(), sorted[i..], dryRun, settings, now);
      var v := HarvestLayer(db, sorted[i], settings, now);
      match v {
        case Harvested =>
          if dryRun {
            db.Restore(committed);
          } else {
            committed := db.Snapshot();
          }
        case Rejected(_) =>
        case Raised(e) =>
          db.Restore(committed);
          return Fail(e);
      }
      i := i + 1;
    }
    db.Restore(committed);
    return Pass;
  }

  /** A dry run leaves the database as it was. */
  lemma {:induction false} DryRunChangesNothing(committed: Tables, session: Tables, objects: seq<GeonodeObject>,
                                                settings: Settings, now: int)
    ensures HarvestAll(committed, session, objects, true, settings, now).0 == committed
    decreases |objects|
  {
    if |objects| > 0 {
      var (after, v) := HarvestStep(session, objects[0], settings, now);
      match v
      case Harvested => DryRunChangesNothing(committed, committed, objects[1..], settings, now);
      case Rejected(_) => DryRunChangesNothing(committed, after, objects[1..], settings, now);
      case Raised(_) =>
    }
  }
}
