/**
 * The tables the processing package reads and writes, the per-hazard-type settings, and the
 * database session that holds the tables.  Dates are day numbers, quality scores integers.
 */
module Schema {
  import opened Types

  /** The administrative level types: country, province, region (the finest). */
  datatype LevelType = COU | PRO | REG

  /**
   * A hazardset.  A hazardset created by the harvester carries placeholder values in `local`,
   * the two dates and the two qualities until the completion step computes them; nothing reads
   * those fields before the hazardset is complete.
   */
  datatype HazardSet = HazardSet(
    id: string,
    hazardtype: string,  // the hazard type mnemonic, e.g. "EQ"
    local: bool,
    complete: bool,
    processed: bool,
    dataDate: int,
    metadataDate: int,
    calcQuality: int,
    sciQuality: int)

  /** A raster layer of a hazardset; `level` and `returnPeriod` are absent for preprocessed types. */
  datatype Layer = Layer(
    hazardsetId: string,
    level: Option<HazardLevel>,
    returnPeriod: Option<int>,
    unit: Option<string>,
    dataDate: int,
    metadataDate: int,
    geonodeId: int,
    downloadUrl: string,
    calcQuality: int,
    sciQuality: int,
    local: bool,
    downloaded: bool)

  /** The level computed for one administrative division from one hazardset. */
  datatype Output = Output(hazardsetId: string, divisionId: int, level: HazardLevel, coverageRatio: int)

  /**
   * An administrative division.  Its parent is the division whose `code` is its `parentCode`.
   * The geometry itself is abstracted away; only whether it is null is kept.
   */
  datatype Division = Division(id: int, code: int, leveltype: LevelType, parentCode: Option<int>, hasGeometry: bool)

  /** A hazard category: one per (hazard type, hazard level). */
  datatype Category = Category(hazardtype: string, level: HazardLevel)

  /** A row of the published relation between hazard categories and administrative divisions. */
  datatype Published = Published(divisionId: int, category: Category, source: string)

  /** A configured return period: one exact value, or an inclusive range. */
  datatype PeriodRule = Exactly(period: int) | Between(lo: int, hi: int)

  datatype ReturnPeriods = ReturnPeriods(low: PeriodRule, med: PeriodRule, hig: PeriodRule)

  /** The settings of one hazard type. */
  datatype TypeSettings = TypeSettings(
    geonodeType: string,          // the hazard type name used by the catalog
    preprocessed: Option<bool>,   // None when the setting is null: the type has no process configuration
    returnPeriods: ReturnPeriods,
    thresholds: map<string, int>) // per hazard unit

  /** The hazard type settings keyed by mnemonic, in the order the settings dictionary yields them. */
  type Settings = seq<(string, TypeSettings)>

  /** `settings['hazard_types'][mnemonic]`, or None where that lookup raises. */
  function SettingsOf(settings: Settings, mnemonic: string): (r: Option<TypeSettings>)
    ensures r.None? <==> forall k :: 0 <= k < |settings| ==> settings[k].0 != mnemonic
    ensures r.Some? ==> exists k :: 0 <= k < |settings| && settings[k] == (mnemonic, r.value)
  {
    if |settings| == 0 then None
    else if settings[0].0 == mnemonic then Some(settings[0].1)
    else SettingsOf(settings[1..], mnemonic)
  }

  /** The position of the hazardset with primary key `id`. */
  function FindHazardSet(hazardsets: seq<HazardSet>, id: string): Option<nat>
  {
    FirstIndex(hazardsets, (h: HazardSet) => h.id == id)
  }

  /** Primary keys are unique. */
  predicate UniqueIds(hazardsets: seq<HazardSet>)
  {
    forall i, j :: 0 <= i < j < |hazardsets| ==> hazardsets[i].id != hazardsets[j].id
  }

  /** The whole database at one moment. */
  datatype Tables = Tables(
    hazardsets: seq<HazardSet>,
    layers: seq<Layer>,
    outputs: seq<Output>,
    divisions: seq<Division>,
    categories: set<Category>,
    published: seq<Published>)

  /**
   * The database session: every table is a field that the operations reassign.  A transaction
   * commits by keeping the fields and rolls back by restoring the snapshot taken when it began.
   */
  class Session {
    var hazardsets: seq<HazardSet>
    var layers: seq<Layer>
    var outputs: seq<Output>
    var divisions: seq<Division>
    var categories: set<Category>
    var published: seq<Published>

    constructor (t: Tables)
      ensures Snapshot() == t
    {
      hazardsets, layers, outputs := t.hazardsets, t.layers, t.outputs;
      divisions, categories, published := t.divisions, t.categories, t.published;
    }

    function Snapshot(): Tables
      reads this
    {
      Tables(hazardsets, layers, outputs, divisions, categories, published)
    }

    /** Puts every table back to the values of `t`. */
    method Restore(t: Tables)
      modifies this
      ensures Snapshot() == t
    {
      hazardsets, layers, outputs := t.hazardsets, t.layers, t.outputs;
      divisions, categories, published := t.divisions, t.categories, t.published;
    }
  }
}
