/**
 * The decision tree that fills the published relation between hazard categories and
 * administrative divisions: one category per (REG division, hazard type) chosen among the
 * processed Outputs by the quality of their hazardsets, then upscaled to provinces and to
 * countries by keeping the most severe level among the children.
 */
module DecisionTree {
  import opened Types
  import opened Schema

  // ----- the window function shared by the three queries -----

  /** The position of a row in its window's ORDER BY: lexicographic, smaller first. */
  datatype Rank = Rank(first: int, second: int, third: int, fourth: int)

  predicate NoLater(x: Rank, y: Rank)
  {
    x.first < y.first
    || (x.first == y.first && (x.second < y.second
    || (x.second == y.second && (x.third < y.third
    || (x.third == y.third && x.fourth <= y.fourth)))))
  }

  /** A row the window reads: the division and category it would publish, its source, its rank. */
  datatype Row = Row(divisionId: int, category: Category, source: string, rank: Rank)

  /** The window's partition: a division and a hazard type. */
  datatype Part = Part(divisionId: int, hazardtype: string)

  function PartOf(r: Row): Part { Part(r.divisionId, r.category.hazardtype) }

  function Slot(q: Published): Part { Part(q.divisionId, q.category.hazardtype) }

  function Publish(r: Row): Published { Published(r.divisionId, r.category, r.source) }

  /**
   * `first_value` over a partition: a row of smallest rank.  Rows of equal rank are not ordered
   * by the query; the earliest one is taken here.
   */
  function FirstValue(rows: seq<Row>): (w: Row)
    requires |rows| > 0
    ensures w in rows
    ensures forall k :: 0 <= k < |rows| ==> NoLater(w.rank, rows[k].rank)
    decreases |rows|
  {
    if |rows| == 1 then rows[0]
    else
      var w := FirstValue(rows[1..]);
      if NoLater(rows[0].rank, w.rank) then rows[0] else w
  }

  function Partition(rows: seq<Row>, p: Part): seq<Row>
  {
    Filter(rows, (r: Row) => PartOf(r) == p)
  }

  /** The partitions the rows fall into, each once. */
  function Parts(rows: seq<Row>): (parts: seq<Part>)
    ensures forall i, j :: 0 <= i < j < |parts| ==> parts[i] != parts[j]
    ensures forall r :: r in rows ==> PartOf(r) in parts
    decreases |rows|
  {
    if |rows| == 0 then []
    else
      var rest := Parts(rows[1..]);
      assert forall r :: r in rows ==> r == rows[0] || r in rows[1..];
      if PartOf(rows[0]) in rest then rest else [PartOf(rows[0])] + rest
  }

  /** No partition is empty: each comes from a row. */
  lemma {:induction false} PartsAreInhabited(rows: seq<Row>)
    ensures forall i :: 0 <= i < |Parts(rows)| ==> |Partition(rows, Parts(rows)[i])| > 0
    decreases |rows|
  {
    if |rows| > 0 {
      PartsAreInhabited(rows[1..]);
      var rest := Parts(rows[1..]);
      assert rows[0] in Partition(rows, PartOf(rows[0]));
      forall p | |Partition(rows[1..], p)| > 0
        ensures |Partition(rows, p)| > 0
      {
        assert Partition(rows[1..], p)[0] in Partition(rows, p);
      }
      assert forall i :: 0 <= i < |Parts(rows)| ==> Parts(rows)[i] == PartOf(rows[0]) || Parts(rows)[i] in rest;
    }
  }

  /**
   * `SELECT DISTINCT` of the partition and the `first_value` of the window: one published row per
   * partition, taken from a row of smallest rank in it.
   */
  function WindowSelect(rows: seq<Row>): (out: seq<Published>)
    ensures forall i, j :: 0 <= i < j < |out| ==> Slot(out[i]) != Slot(out[j])
  {
    var parts := Parts(rows);
    PartsAreInhabited(rows);
    var out := seq(|parts|, i requires 0 <= i < |parts| => Publish(FirstValue(Partition(rows, parts[i]))));
    assert forall i :: 0 <= i < |parts| ==> Slot(out[i]) == parts[i] by {
      forall i | 0 <= i < |parts| ensures Slot(out[i]) == parts[i] {
        var part := Partition(rows, parts[i]);
        var w := FirstValue(part);
        var k :| 0 <= k < |part| && part[k] == w;
      }
    }
    out
  }

  /** Every partition of the rows gets its published row. */
  lemma WindowSelectCovers(rows: seq<Row>, x: Row)
    requires x in rows
    ensures exists q :: q in WindowSelect(rows) && Slot(q) == PartOf(x)
  {
    var parts := Parts(rows);
    var i :| 0 <= i < |parts| && parts[i] == PartOf(x);
    var part := Partition(rows, parts[i]);
    var w := FirstValue(part);
    var k :| 0 <= k < |part| && part[k] == w;
    assert WindowSelect(rows)[i] in WindowSelect(rows);
  }

  /** Each published row is a row of smallest rank in its partition. */
  lemma WindowSelectPicksFirst(rows: seq<Row>, q: Published)
    requires q in WindowSelect(rows)
    ensures exists w :: (w in rows && q == Publish(w)
      && forall x :: x in rows && PartOf(x) == PartOf(w) ==> NoLater(w.rank, x.rank))
  {
    var parts := Parts(rows);
    var out := WindowSelect(rows);
    var i :| 0 <= i < |out| && out[i] == q;
    var part := Partition(rows, parts[i]);
    var w := FirstValue(part);
    assert q == Publish(w);
    var k :| 0 <= k < |part| && part[k] == w;
    assert w in rows && PartOf(w) == parts[i];
    forall x | x in rows && PartOf(x) == PartOf(w)
      ensures NoLater(w.rank, x.rank)
    {
      var j :| 0 <= j < |rows| && rows[j] == x;
      assert x in part;
      var m :| 0 <= m < |part| && part[m] == x;
    }
  }

  // ----- the REG level -----

  /** The ORDER BY of the REG window, in the hazardsets' own terms: `a` comes no later than `b`. */
  predicate Prefers(a: HazardSet, b: HazardSet)
  {
    a.calcQuality > b.calcQuality
    || (a.calcQuality == b.calcQuality && (a.sciQuality > b.sciQuality
    || (a.sciQuality == b.sciQuality && ((a.local && !b.local)
    || (a.local == b.local && a.dataDate >= b.dataDate)))))
  }

  /** The join of an Output with a hazardset and with the category of its type and level. */
  predicate Joined(o: Output, h: HazardSet, categories: set<Category>)
  {
    h.id == o.hazardsetId && Category(h.hazardtype, o.level) in categories
  }

  /** Quality descending, scientific quality descending, local first, most recent data first. */
  function RegRow(o: Output, h: HazardSet): Row
  {
    Row(o.divisionId, Category(h.hazardtype, o.level), h.id,
        Rank(-h.calcQuality, -h.sciQuality, if h.local then 0 else 1, -h.dataDate))
  }

  lemma RegRankIsPreference(o: Output, a: HazardSet, o': Output, b: HazardSet)
    ensures NoLater(RegRow(o, a).rank, RegRow(o', b).rank) <==> Prefers(a, b)
  {
  }

  function JoinOutput(o: Output, hazardsets: seq<HazardSet>, categories: set<Category>): (rows: seq<Row>)
    ensures forall h :: h in hazardsets && Joined(o, h, categories) ==> RegRow(o, h) in rows
    decreases |hazardsets|
  {
    if |hazardsets| == 0 then []
    else
      var rest := JoinOutput(o, hazardsets[1..], categories);
      assert forall h :: h in hazardsets ==> h == hazardsets[0] || h in hazardsets[1..];
      if Joined(o, hazardsets[0], categories) then [RegRow(o, hazardsets[0])] + rest else rest
  }

  /** The rows of the REG query's join, one per Output and matching hazardset. */
  function RegRows(outputs: seq<Output>, hazardsets: seq<HazardSet>, categories: set<Category>): (rows: seq<Row>)
    ensures forall o, h :: o in outputs && h in hazardsets && Joined(o, h, categories) ==> RegRow(o, h) in rows
    decreases |outputs|
  {
    if |outputs| == 0 then []
    else
      var rest := RegRows(outputs[1..], hazardsets, categories);
      assert forall o :: o in outputs ==> o == outputs[0] || o in outputs[1..];
      JoinOutput(outputs[0], hazardsets, categories) + rest
  }

  /** Every row of the REG join comes from a joined Output. */
  lemma {:induction false} RegRowsSound(outputs: seq<Output>, hazardsets: seq<HazardSet>, categories: set<Category>, r: Row)
    requires r in RegRows(outputs, hazardsets, categories)
    ensures exists o, h :: o in outputs && h in hazardsets && Joined(o, h, categories) && r == RegRow(o, h)
    decreases |outputs|
  {
    var head := JoinOutput(outputs[0], hazardsets, categories);
    if r in head {
      JoinOutputSound(outputs[0], hazardsets, categories, r);
      var h :| h in hazardsets && Joined(outputs[0], h, categories) && r == RegRow(outputs[0], h);
      assert outputs[0] in outputs;
    } else {
      RegRowsSound(outputs[1..], hazardsets, categories, r);
      var o, h :| o in outputs[1..] && h in hazardsets && Joined(o, h, categories) && r == RegRow(o, h);
      assert o in outputs;
    }
  }

  lemma {:induction false} JoinOutputSound(o: Output, hazardsets: seq<HazardSet>, categories: set<Category>, r: Row)
    requires r in JoinOutput(o, hazardsets, categories)
    ensures exists h :: h in hazardsets && Joined(o, h, categories) && r == RegRow(o, h)
    decreases |hazardsets|
  {
    if !(Joined(o, hazardsets[0], categories) && r == RegRow(o, hazardsets[0])) {
      JoinOutputSound(o, hazardsets[1..], categories, r);
      var h :| h in hazardsets[1..] && Joined(o, h, categories) && r == RegRow(o, h);
      assert h in hazardsets;
    }
  }

  function RegLevel(t: Tables): seq<Published>
  {
    WindowSelect(RegRows(t.outputs, t.hazardsets, t.categories))
  }

  /**
   * Each REG row publishes the category and hazardset of a joined Output whose hazardset is
   * preferred to every other one joined for the same division and hazard type.
   */
  lemma RegWinnerIsPreferred(t: Tables, q: Published)
    requires q in RegLevel(t)
    ensures exists o, h :: (o in t.outputs && h in t.hazardsets && Joined(o, h, t.categories)
      && q == Published(o.divisionId, Category(h.hazardtype, o.level), h.id)
      && forall o', h' :: (o' in t.outputs && h' in t.hazardsets && Joined(o', h', t.categories)
           && o'.divisionId == o.divisionId && h'.hazardtype == h.hazardtype) ==> Prefers(h, h'))
  {
    var rows := RegRows(t.outputs, t.hazardsets, t.categories);
    WindowSelectPicksFirst(rows, q);
    var w :| w in rows && q == Publish(w) && forall x :: x in rows && PartOf(x) == PartOf(w) ==> NoLater(w.rank, x.rank);
    RegRowsSound(t.outputs, t.hazardsets, t.categories, w);
    var o, h :| o in t.outputs && h in t.hazardsets && Joined(o, h, t.categories) && w == RegRow(o, h);
    forall o', h' | o' in t.outputs && h' in t.hazardsets && Joined(o', h', t.categories)
        && o'.divisionId == o.divisionId && h'.hazardtype == h.hazardtype
      ensures Prefers(h, h')
    {
      assert RegRow(o', h') in rows;
      RegRankIsPreference(o, h, o', h');
    }
  }

  /** Every joined Output yields a REG row for its division and hazard type, and only one. */
  lemma RegCoversEveryOutput(t: Tables, o: Output, h: HazardSet)
    requires o in t.outputs && h in t.hazardsets && Joined(o, h, t.categories)
    ensures exists q :: q in RegLevel(t) && Slot(q) == Part(o.divisionId, h.hazardtype)
    ensures forall q, q' :: q in RegLevel(t) && q' in RegLevel(t) && Slot(q) == Slot(q') ==> q == q'
  {
    WindowSelectCovers(RegRows(t.outputs, t.hazardsets, t.categories), RegRow(o, h));
  }

  /** A hazardset whose calculation quality beats every other candidate decides the division's category. */
  lemma HigherCalcQualityWins(t: Tables, o: Output, h: HazardSet, q: Published)
    requires o in t.outputs && h in t.hazardsets && Joined(o, h, t.categories)
    requires forall o', h' :: ((o' in t.outputs && h' in t.hazardsets && Joined(o', h', t.categories)
      && o'.divisionId == o.divisionId && h'.hazardtype == h.hazardtype && (o', h') != (o, h))
      ==> h'.calcQuality < h.calcQuality)
    requires q in RegLevel(t) && Slot(q) == Part(o.divisionId, h.hazardtype)
    ensures q == Published(o.divisionId, Category(h.hazardtype, o.level), h.id)
  {
    RegWinnerIsPreferred(t, q);
    var ow, hw :| ow in t.outputs && hw in t.hazardsets && Joined(ow, hw, t.categories)
      && q == Published(ow.divisionId, Category(hw.hazardtype, ow.level), hw.id)
      && forall o', h' :: (o' in t.outputs && h' in t.hazardsets && Joined(o', h', t.categories)
           && o'.divisionId == ow.divisionId && h'.hazardtype == hw.hazardtype) ==> Prefers(hw, h');
    assert Prefers(hw, h);
  }

  // ----- upscaling -----

  predicate ParentOf(child: Division, parent: Division)
  {
    child.parentCode == Some(parent.code)
  }

  /** Published row `r` reaches `parent` of the target level through its division `child`. */
  predicate Lifts(r: Published, child: Division, parent: Division, target: LevelType)
  {
    child.id == r.divisionId && ParentOf(child, parent) && parent.leveltype == target
  }

  /** Ordered by the hazard level's `order`: the most severe first. */
  function UpRow(r: Published, parent: Division): Row
  {
    Row(parent.id, r.category, r.source, Rank(Order(r.category.level), 0, 0, 0))
  }

  function ParentRows(r: Published, child: Division, parents: seq<Division>, target: LevelType): (rows: seq<Row>)
    ensures forall p :: p in parents && Lifts(r, child, p, target) ==> UpRow(r, p) in rows
    decreases |parents|
  {
    if |parents| == 0 then []
    else
      var rest := ParentRows(r, child, parents[1..], target);
      assert forall p :: p in parents ==> p == parents[0] || p in parents[1..];
      if Lifts(r, child, parents[0], target) then [UpRow(r, parents[0])] + rest else rest
  }

  function ChildRows(r: Published, children: seq<Division>, divisions: seq<Division>, target: LevelType): (rows: seq<Row>)
    ensures forall c, p :: c in children && p in divisions && Lifts(r, c, p, target) ==> UpRow(r, p) in rows
    decreases |children|
  {
    if |children| == 0 then []
    else
      var rest := ChildRows(r, children[1..], divisions, target);
      assert forall c :: c in children ==> c == children[0] || c in children[1..];
      ParentRows(r, children[0], divisions, target) + rest
  }

  /** The rows of the upscaling query's join: published rows with their child and parent divisions. */
  function UpRows(rel: seq<Published>, divisions: seq<Division>, target: LevelType): (rows: seq<Row>)
    ensures forall r, c, p :: r in rel && c in divisions && p in divisions && Lifts(r, c, p, target) ==> UpRow(r, p) in rows
    decreases |rel|
  {
    if |rel| == 0 then []
    else
      var rest := UpRows(rel[1..], divisions, target);
      assert forall r :: r in rel ==> r == rel[0] || r in rel[1..];
      ChildRows(rel[0], divisions, divisions, target) + rest
  }

  lemma {:induction false} ParentRowsSound(r: Published, child: Division, parents: seq<Division>, target: LevelType, x: Row)
    requires x in ParentRows(r, child, parents, target)
    ensures exists p :: p in parents && Lifts(r, child, p, target) && x == UpRow(r, p)
    decreases |parents|
  {
    if !(Lifts(r, child, parents[0], target) && x == UpRow(r, parents[0])) {
      ParentRowsSound(r, child, parents[1..], target, x);
      var p :| p in parents[1..] && Lifts(r, child, p, target) && x == UpRow(r, p);
      assert p in parents;
    }
  }

  lemma {:induction false} ChildRowsSound(r: Published, children: seq<Division>, divisions: seq<Division>,
                                          target: LevelType, x: Row)
    requires x in ChildRows(r, children, divisions, target)
    ensures exists c, p :: c in children && p in divisions && Lifts(r, c, p, target) && x == UpRow(r, p)
    decreases |children|
  {
    if x in ParentRows(r, children[0], divisions, target) {
      ParentRowsSound(r, children[0], divisions, target, x);
      assert children[0] in children;
    } else {
      ChildRowsSound(r, children[1..], divisions, target, x);
      var c, p :| c in children[1..] && p in divisions && Lifts(r, c, p, target) && x == UpRow(r, p);
      assert c in children;
    }
  }

  /** Every row of the upscaling join comes from a published row, its division and that division's parent. */
  lemma {:induction false} UpRowsSound(rel: seq<Published>, divisions: seq<Division>, target: LevelType, x: Row)
    requires x in UpRows(rel, divisions, target)
    ensures exists r, c, p :: r in rel && c in divisions && p in divisions && Lifts(r, c, p, target) && x == UpRow(r, p)
    decreases |rel|
  {
    if x in ChildRows(rel[0], divisions, divisions, target) {
      ChildRowsSound(rel[0], divisions, divisions, target, x);
      assert rel[0] in rel;
    } else {
      UpRowsSound(rel[1..], divisions, target, x);
      var r, c, p :| r in rel[1..] && c in divisions && p in divisions && Lifts(r, c, p, target) && x == UpRow(r, p);
      assert r in rel;
    }
  }

  function Upscale(rel: seq<Published>, divisions: seq<Division>, target: LevelType): seq<Published>
  {
    WindowSelect(UpRows(rel, divisions, target))
  }

  /** Every upscaled row copies the category and source of a row of one of the parent's children. */
  lemma UpscaleComesFromChild(rel: seq<Published>, divisions: seq<Division>, target: LevelType, q: Published)
    requires q in Upscale(rel, divisions, target)
    ensures exists r, c, p :: (r in rel && c in divisions && p in divisions && Lifts(r, c, p, target)
      && q == Published(p.id, r.category, r.source))
  {
    var rows := UpRows(rel, divisions, target);
    WindowSelectPicksFirst(rows, q);
    var w :| w in rows && q == Publish(w);
    UpRowsSound(rel, divisions, target, w);
  }

  /** A parent of the target level gets a row for each hazard type one of its children has. */
  lemma UpscaleCoversParents(rel: seq<Published>, divisions: seq<Division>, target: LevelType,
                             r: Published, c: Division, p: Division)
    requires r in rel && c in divisions && p in divisions && Lifts(r, c, p, target)
    ensures exists q :: q in Upscale(rel, divisions, target) && Slot(q) == Part(p.id, r.category.hazardtype)
  {
    WindowSelectCovers(UpRows(rel, divisions, target), UpRow(r, p));
  }

  /** The level of an upscaled row is at least as severe as each of its children's. */
  lemma UpscaleAtLeastAsSevere(rel: seq<Published>, divisions: seq<Division>, target: LevelType,
                               q: Published, r: Published, c: Division, p: Division)
    requires q in Upscale(rel, divisions, target)
    requires r in rel && c in divisions && p in divisions && Lifts(r, c, p, target)
    requires Slot(q) == Part(p.id, r.category.hazardtype)
    ensures Order(q.category.level) <= Order(r.category.level)
  {
    var rows := UpRows(rel, divisions, target);
    WindowSelectPicksFirst(rows, q);
    var w :| w in rows && q == Publish(w) && forall x :: x in rows && PartOf(x) == PartOf(w) ==> NoLater(w.rank, x.rank);
    assert UpRow(r, p) in rows;
    UpRowsSound(rel, divisions, target, w);
  }

  // ----- the whole tree -----

  function ProLevel(t: Tables): seq<Published>
  {
    Upscale(RegLevel(t), t.divisions, PRO)
  }

  function CouLevel(t: Tables): seq<Published>
  {
    Upscale(RegLevel(t) + ProLevel(t), t.divisions, COU)
  }

  /** The published relation the decision tree computes; nothing of the previous relation is kept. */
  function TreeRelation(t: Tables): seq<Published>
  {
    RegLevel(t) + ProLevel(t) + CouLevel(t)
  }

  /**
   * A country is published at least as severe as each region below one of its provinces, for
   * every hazard type.
   */
  lemma CountryAtLeastAsSevereAsRegions(t: Tables, q: Published, r: Published, reg: Division, pro: Division, cou: Division)
    requires r in RegLevel(t) && q in CouLevel(t)
    requires reg in t.divisions && pro in t.divisions && cou in t.divisions
    requires reg.id == r.divisionId && ParentOf(reg, pro) && pro.leveltype == PRO
    requires ParentOf(pro, cou) && cou.leveltype == COU
    requires Slot(q) == Part(cou.id, r.category.hazardtype)
    ensures Order(q.category.level) <= Order(r.category.level)
  {
    var regRows := RegLevel(t);
    var proRows := ProLevel(t);
    UpscaleCoversParents(regRows, t.divisions, PRO, r, reg, pro);
    var q' :| q' in proRows && Slot(q') == Part(pro.id, r.category.hazardtype);
    UpscaleAtLeastAsSevere(regRows, t.divisions, PRO, q', r, reg, pro);
    assert q' in regRows + proRows;
    UpscaleAtLeastAsSevere(regRows + proRows, t.divisions, COU, q, q', pro, cou);
  }

  /**
   * Purges the relation and runs the three queries in one transaction, rolled back on a dry run.
   */
  method ApplyDecisionTree(db: Session, dryRun: bool)
    modifies db
    ensures db.Snapshot() == if dryRun then old(db.Snapshot()) else old(db.Snapshot()).(published := TreeRelation(old(db.Snapshot())))
  {
    var saved := db.Snapshot();
    db.published := [];
    db.published := db.published + RegLevel(saved);
    assert db.published == RegLevel(saved);
    db.published := db.published + Upscale(db.published, db.divisions, PRO);
    assert db.published == RegLevel(saved) + ProLevel(saved);
    db.published := db.published + Upscale(db.published, db.divisions, COU);
    if dryRun {
      db.Restore(saved);
    }
  }
}
