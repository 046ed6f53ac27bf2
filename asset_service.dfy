/**
 * The asset store: the inventory list kept by the Angular service, the operations that
 * add, update and delete records in it, and the read-only queries the pages and reports
 * run over the current list (lookups, filters, statistics, search, the report filter,
 * the distinct years and locations, and the per-asset depreciation).
 */
module AssetService {
  import opened Wrappers
  import opened Numbers
  import opened Text
  import opened Seqs
  import opened AssetModel
  import opened RateDepreciation

  // ---------------------------------------------------------------------------
  // Record shapes passed to the store.

  /** `Omit<Asset, 'id'>`: everything an asset holds except its id. */
  datatype AssetDraft = AssetDraft(
    name: string,
    assetType: string,
    price: real,
    quantity: int,
    status: string,
    responsible: string,
    location: string,
    date: Date)

  /** `{ ...draft, id }`. */
  function WithId(draft: AssetDraft, id: int): (a: Asset)
    ensures a.id == id && DraftOf(a) == draft
  {
    Asset(id, draft.name, draft.assetType, draft.price, draft.quantity, draft.status,
      draft.responsible, draft.location, draft.date)
  }

  /** The asset with its id dropped. */
  function DraftOf(a: Asset): AssetDraft {
    AssetDraft(a.name, a.assetType, a.price, a.quantity, a.status, a.responsible, a.location, a.date)
  }

  /** `Partial<Asset>`: each key present (`Some`) or absent (`None`). */
  datatype AssetPatch = AssetPatch(
    id: Option<int>,
    name: Option<string>,
    assetType: Option<string>,
    price: Option<real>,
    quantity: Option<int>,
    status: Option<string>,
    responsible: Option<string>,
    location: Option<string>,
    date: Option<Date>)

  const EMPTY_PATCH: AssetPatch := AssetPatch(None, None, None, None, None, None, None, None, None)

  /** `{ ...a, ...p }`: the keys present in the patch win. */
  function Merge(a: Asset, p: AssetPatch): (m: Asset)
    ensures p == EMPTY_PATCH ==> m == a
    ensures (p.id.Some? ==> m.id == p.id.value) && (p.id.None? ==> m.id == a.id)
    ensures (p.name.Some? ==> m.name == p.name.value) && (p.name.None? ==> m.name == a.name)
    ensures (p.assetType.Some? ==> m.assetType == p.assetType.value) && (p.assetType.None? ==> m.assetType == a.assetType)
    ensures (p.price.Some? ==> m.price == p.price.value) && (p.price.None? ==> m.price == a.price)
    ensures (p.quantity.Some? ==> m.quantity == p.quantity.value) && (p.quantity.None? ==> m.quantity == a.quantity)
    ensures (p.status.Some? ==> m.status == p.status.value) && (p.status.None? ==> m.status == a.status)
    ensures (p.responsible.Some? ==> m.responsible == p.responsible.value) && (p.responsible.None? ==> m.responsible == a.responsible)
    ensures (p.location.Some? ==> m.location == p.location.value) && (p.location.None? ==> m.location == a.location)
    ensures (p.date.Some? ==> m.date == p.date.value) && (p.date.None? ==> m.date == a.date)
  {
    Asset(p.id.GetOr(a.id), p.name.GetOr(a.name), p.assetType.GetOr(a.assetType),
      p.price.GetOr(a.price), p.quantity.GetOr(a.quantity), p.status.GetOr(a.status),
      p.responsible.GetOr(a.responsible), p.location.GetOr(a.location), p.date.GetOr(a.date))
  }

  /** `{ ...p, ...q }`: two patches spread one after the other. */
  function Then(p: AssetPatch, q: AssetPatch): AssetPatch {
    AssetPatch(
      if q.id.Some? then q.id else p.id,
      if q.name.Some? then q.name else p.name,
      if q.assetType.Some? then q.assetType else p.assetType,
      if q.price.Some? then q.price else p.price,
      if q.quantity.Some? then q.quantity else p.quantity,
      if q.status.Some? then q.status else p.status,
      if q.responsible.Some? then q.responsible else p.responsible,
      if q.location.Some? then q.location else p.location,
      if q.date.Some? then q.date else p.date)
  }

  /**
   * Spreading is an action of patches on assets: the empty patch changes nothing, applying
   * the same patch twice is applying it once, and two patches in a row are their spread.
   */
  lemma MergeLaws(a: Asset, p: AssetPatch, q: AssetPatch)
    ensures Merge(a, EMPTY_PATCH) == a
    ensures Merge(Merge(a, p), p) == Merge(a, p)
    ensures Merge(Merge(a, p), q) == Merge(a, Then(p, q))
  {
  }

  // ---------------------------------------------------------------------------
  // Ids.

  /** `Math.max(...assets.map(a => a.id))`. */
  function MaxId(assets: seq<Asset>): (m: int)
    requires assets != []
    ensures forall a | a in assets :: a.id <= m
    ensures exists i | 0 <= i < |assets| :: assets[i].id == m
  {
    if |assets| == 1 then assets[0].id
    else
      var rest := MaxId(assets[1..]);
      assert forall a | a in assets :: a == assets[0] || a in assets[1..];
      var k :| 0 <= k < |assets[1..]| && assets[1..][k].id == rest;
      assert assets[k + 1].id == rest;
      if assets[0].id > rest then assets[0].id else rest
  }

  /** The id `addAsset` hands out: one more than the largest, or 1 for an empty store. */
  function NextId(assets: seq<Asset>): (id: int)
    ensures forall a | a in assets :: a.id < id
    ensures assets == [] ==> id == 1
    ensures assets != [] ==> exists i | 0 <= i < |assets| :: assets[i].id == id - 1
  {
    if |assets| > 0 then MaxId(assets) + 1 else 1
  }

  /** No two records share an id. */
  predicate UniqueIds(assets: seq<Asset>) {
    forall i, j :: 0 <= i < j < |assets| ==> assets[i].id != assets[j].id
  }

  /** `a => a.id !== id`, the condition `deleteAsset` keeps. */
  function HasOtherId(id: int): Asset -> bool {
    (a: Asset) => a.id != id
  }

  /** Deleting keeps the remaining ids distinct. */
  lemma {:induction false} FilterKeepsUniqueIds(assets: seq<Asset>, p: Asset -> bool)
    requires UniqueIds(assets)
    ensures UniqueIds(Filter(assets, p))
  {
    if assets != [] {
      FilterKeepsUniqueIds(assets[1..], p);
      var r := Filter(assets[1..], p);
      if p(assets[0]) {
        assert forall a | a in r :: a in assets[1..];
        assert forall a | a in assets[1..] :: a.id != assets[0].id;
        var s := [assets[0]] + r;
        forall i, j | 0 <= i < j < |s|
          ensures s[i].id != s[j].id
        {
          if i == 0 {
            assert s[j] in r;
          } else {
            assert s[i] == r[i - 1] && s[j] == r[j - 1];
          }
        }
      }
    }
  }

  // ---------------------------------------------------------------------------
  // The store.

  /** The inventory held by the service (its in-memory copy of the saved list). */
  class AssetStore {
    var assets: seq<Asset>

    /** Starts from the saved list, or from an empty one when nothing was saved. */
    constructor(stored: Option<seq<Asset>>)
      ensures assets == stored.GetOr([])
    {
      assets := stored.GetOr([]);
    }

    /** `addAsset`: the draft gets a fresh id and goes at the end. */
    method AddAsset(draft: AssetDraft) returns (added: Asset)
      modifies this
      ensures added.id == NextId(old(assets)) && DraftOf(added) == draft
      ensures assets == old(assets) + [added]
      ensures forall a | a in old(assets) :: a.id < added.id
      ensures TotalValue(assets) == TotalValue(old(assets)) + OriginalValue(added)
      ensures UniqueIds(old(assets)) ==> UniqueIds(assets)
    {
      added := WithId(draft, NextId(assets));
      SumByAppend(assets, added, OriginalValue);
      assets := assets + [added];
    }

    /**
     * `updateAsset`: the first record with the id gets the patch spread over it; with no
     * such record nothing changes and the answer is false.
     */
    method UpdateAsset(id: int, updates: AssetPatch) returns (ok: bool)
      modifies this
      ensures ok <==> exists a | a in old(assets) :: a.id == id
      ensures !ok ==> assets == old(assets)
      ensures ok ==> var i := FindIndex(old(assets), id);
        assets == old(assets)[i := Merge(old(assets)[i], updates)]
        && TotalValue(assets) == TotalValue(old(assets)) - OriginalValue(old(assets)[i]) + OriginalValue(assets[i])
      ensures UniqueIds(old(assets)) && (updates.id.None? || updates.id == Some(id)) ==> UniqueIds(assets)
    {
      var index := FindIndex(assets, id);
      if index == -1 {
        ok := false;
        return;
      }
      var merged := Merge(assets[index], updates);
      SumByUpdate(assets, index, merged, OriginalValue);
      assets := assets[index := merged];
      ok := true;
    }

    /** `deleteAsset`: every record with the id goes; false when there was none. */
    method DeleteAsset(id: int) returns (ok: bool)
      modifies this
      ensures ok <==> exists a | a in old(assets) :: a.id == id
      ensures assets == Filter(old(assets), HasOtherId(id))
      ensures !ok ==> assets == old(assets)
      ensures forall a | a in assets :: a.id != id
      ensures UniqueIds(old(assets)) ==> UniqueIds(assets)
    {
      var filtered := Filter(assets, HasOtherId(id));
      FilterKeepsLength(assets, HasOtherId(id));
      if UniqueIds(assets) {
        FilterKeepsUniqueIds(assets, HasOtherId(id));
      }
      if |filtered| == |assets| {
        FilterAll(assets, HasOtherId(id));
        ok := false;
        return;
      }
      assets := filtered;
      ok := true;
    }
  }

  // ---------------------------------------------------------------------------
  // Queries over the current list.

  /** `getAssetsByStatus`. */
  function AssetsByStatus(assets: seq<Asset>, status: string): (r: seq<Asset>)
    ensures forall a :: a in r <==> a in assets && a.status == status
    ensures IsSubseq(r, assets)
  {
    Filter(assets, HasStatus(status))
  }

  /** `a => a.type === t`. */
  function HasType(t: string): Asset -> bool {
    (a: Asset) => a.assetType == t
  }

  /** `getAssetsByType`. */
  function AssetsByType(assets: seq<Asset>, t: string): (r: seq<Asset>)
    ensures forall a :: a in r <==> a in assets && a.assetType == t
    ensures IsSubseq(r, assets)
  {
    Filter(assets, HasType(t))
  }

  /** With non-negative prices and quantities the inventory value is not negative. */
  lemma TotalValueNonNegative(assets: seq<Asset>)
    requires forall a | a in assets :: a.price >= 0.0 && a.quantity >= 0
    ensures TotalValue(assets) >= 0.0
  {
    forall a | a in assets
      ensures 0.0 <= OriginalValue(a) <= OriginalValue(a)
    {
      MulNonNegative(a.price, a.quantity as real);
    }
    SumByBounds(assets, OriginalValue, OriginalValue);
  }

  /** What `getStatistics` returns. */
  datatype Statistics = Statistics(
    total: nat,
    noDisponibles: nat,
    disponibles: nat,
    enMantenimiento: nat,
    valorTotal: real)

  /** A status none of the three counters looks at. */
  function UncountedStatus(): Asset -> bool {
    (a: Asset) => a.status != "No disponible" && a.status != "Disponible" && a.status != "En mantenimiento"
  }

  /** The three counters and the uncounted records split the list. */
  lemma {:induction false} StatusCountsPartition(assets: seq<Asset>)
    ensures |Filter(assets, HasStatus("No disponible"))| + |Filter(assets, HasStatus("Disponible"))|
      + |Filter(assets, HasStatus("En mantenimiento"))| + |Filter(assets, UncountedStatus())| == |assets|
  {
    if assets != [] {
      StatusCountsPartition(assets[1..]);
    }
  }

  /** `getStatistics`: per-status counts, total count and inventory value. */
  function GetStatistics(assets: seq<Asset>): (s: Statistics)
    ensures s.total == |assets| && s.valorTotal == TotalValue(assets)
    ensures s.disponibles == |AssetsByStatus(assets, "Disponible")|
    ensures s.noDisponibles == |AssetsByStatus(assets, "No disponible")|
    ensures s.enMantenimiento == |AssetsByStatus(assets, "En mantenimiento")|
    ensures s.noDisponibles + s.disponibles + s.enMantenimiento + |Filter(assets, UncountedStatus())| == s.total
  {
    StatusCountsPartition(assets);
    Statistics(|assets|,
      |Filter(assets, HasStatus("No disponible"))|,
      |Filter(assets, HasStatus("Disponible"))|,
      |Filter(assets, HasStatus("En mantenimiento"))|,
      TotalValue(assets))
  }

  /** When every status is one of the union's four, the records left uncounted are exactly the retired ones. */
  lemma StatisticsOfValidStatuses(assets: seq<Asset>)
    requires forall a | a in assets :: IsAssetStatus(a.status)
    ensures var s := GetStatistics(assets);
      s.noDisponibles + s.disponibles + s.enMantenimiento + |AssetsByStatus(assets, "Dado de baja")| == s.total
  {
    forall a | a in assets
      ensures UncountedStatus()(a) == HasStatus("Dado de baja")(a)
    {
      assert a.status in ASSET_STATUSES;
    }
    FilterSame(assets, UncountedStatus(), HasStatus("Dado de baja"));
  }

  // ---------------------------------------------------------------------------
  // Search.

  /** The search condition for an already lower-cased term: name, responsible or location contains it, ignoring case. */
  function MatchesTerm(term: string): Asset -> bool {
    (a: Asset) => Contains(Lower(a.name), term) || Contains(Lower(a.responsible), term)
      || Contains(Lower(a.location), term)
  }

  /** `searchAssets`: the records whose name, responsible or location contains the term, ignoring case. */
  function SearchAssets(assets: seq<Asset>, searchTerm: string): (r: seq<Asset>)
    ensures forall a :: a in r <==> a in assets && MatchesTerm(Lower(searchTerm))(a)
    ensures IsSubseq(r, assets)
  {
    Filter(assets, MatchesTerm(Lower(searchTerm)))
  }

  /** An empty term matches every record. */
  lemma SearchEmptyTerm(assets: seq<Asset>)
    ensures SearchAssets(assets, "") == assets
  {
    forall b | b in assets
      ensures MatchesTerm(Lower(""))(b)
    {
      ContainsEmpty(Lower(b.name));
    }
    FilterAll(assets, MatchesTerm(Lower("")));
  }

  /** A record is always found by its own name. */
  lemma SearchFindsByName(assets: seq<Asset>, a: Asset)
    requires a in assets
    ensures a in SearchAssets(assets, a.name)
  {
    ContainsItself(Lower(a.name));
  }

  // ---------------------------------------------------------------------------
  // The report filter.

  /** The optional criteria of `filterAssets`; a key left out is `None`. */
  datatype ReportFilters = ReportFilters(
    year: Option<int>,
    location: Option<string>,
    name: Option<string>,
    status: Option<string>,
    assetType: Option<string>,
    startDate: Option<string>,
    endDate: Option<string>)

  /** `if (filters.year)`: set and not 0. */
  predicate YearSet(y: Option<int>) { y.Some? && y.value != 0 }

  /** `if (filters.x)` for a text criterion: set and not empty. */
  predicate TextSet(t: Option<string>) { t.Some? && t.value != "" }

  /** The whole filter as one condition: each criterion that is set must hold. */
  predicate Satisfies(a: Asset, f: ReportFilters) {
    (YearSet(f.year) ==> a.date.year == f.year.value)
    && (TextSet(f.location) ==> Contains(Lower(a.location), Lower(f.location.value)))
    && (TextSet(f.name) ==> Contains(Lower(a.name), Lower(f.name.value)))
    && (TextSet(f.status) ==> a.status == f.status.value)
    && (TextSet(f.assetType) ==> a.assetType == f.assetType.value)
    && (TextSet(f.startDate) ==> !LexLess(Iso(a.date), f.startDate.value))
    && (TextSet(f.endDate) ==> LexLe(Iso(a.date), f.endDate.value))
  }

  /** One step of the filter chain: filter when the criterion is set, pass through otherwise. */
  function Stage(s: seq<Asset>, active: bool, p: Asset -> bool): seq<Asset> {
    if active then Filter(s, p) else s
  }

  /** The condition accumulated so far, extended by one optional criterion. */
  function AndAlso(acc: Asset -> bool, active: bool, p: Asset -> bool): Asset -> bool {
    (a: Asset) => acc(a) && (!active || p(a))
  }

  lemma StageFilter(s: seq<Asset>, acc: Asset -> bool, active: bool, p: Asset -> bool)
    ensures Stage(Filter(s, acc), active, p) == Filter(s, AndAlso(acc, active, p))
  {
    if active {
      FilterCompose(s, acc, p, AndAlso(acc, active, p));
    } else {
      FilterSame(s, acc, AndAlso(acc, active, p));
    }
  }

  function InYear(f: ReportFilters): Asset -> bool {
    (a: Asset) => a.date.year == f.year.GetOr(0)
  }

  function LocationHas(f: ReportFilters): Asset -> bool {
    (a: Asset) => Contains(Lower(a.location), Lower(f.location.GetOr("")))
  }

  function NameHas(f: ReportFilters): Asset -> bool {
    (a: Asset) => Contains(Lower(a.name), Lower(f.name.GetOr("")))
  }

  function OnOrAfter(f: ReportFilters): Asset -> bool {
    (a: Asset) => !LexLess(Iso(a.date), f.startDate.GetOr(""))
  }

  function OnOrBefore(f: ReportFilters): Asset -> bool {
    (a: Asset) => LexLe(Iso(a.date), f.endDate.GetOr(""))
  }

  /** The accumulated condition after the seven optional criteria, in the source's order. */
  function Condition(f: ReportFilters): Asset -> bool {
    var c1 := AndAlso((a: Asset) => true, YearSet(f.year), InYear(f));
    var c2 := AndAlso(c1, TextSet(f.location), LocationHas(f));
    var c3 := AndAlso(c2, TextSet(f.name), NameHas(f));
    var c4 := AndAlso(c3, TextSet(f.status), HasStatus(f.status.GetOr("")));
    var c5 := AndAlso(c4, TextSet(f.assetType), HasType(f.assetType.GetOr("")));
    var c6 := AndAlso(c5, TextSet(f.startDate), OnOrAfter(f));
    AndAlso(c6, TextSet(f.endDate), OnOrBefore(f))
  }

  lemma ConditionIsSatisfies(f: ReportFilters, a: Asset)
    ensures Condition(f)(a) == Satisfies(a, f)
  {
  }

  /**
   * `filterAssets`: the criteria applied one after the other, each only when set. The
   * result keeps, in their order, exactly the records that meet every set criterion.
   */
  function FilterAssets(assets: seq<Asset>, f: ReportFilters): (r: seq<Asset>)
    ensures r == Filter(assets, (a: Asset) => Satisfies(a, f))
    ensures forall a :: a in r <==> a in assets && Satisfies(a, f)
    ensures IsSubseq(r, assets)
  {
    var s1 := Stage(assets, YearSet(f.year), InYear(f));
    var s2 := Stage(s1, TextSet(f.location), LocationHas(f));
    var s3 := Stage(s2, TextSet(f.name), NameHas(f));
    var s4 := Stage(s3, TextSet(f.status), HasStatus(f.status.GetOr("")));
    var s5 := Stage(s4, TextSet(f.assetType), HasType(f.assetType.GetOr("")));
    var s6 := Stage(s5, TextSet(f.startDate), OnOrAfter(f));
    var s7 := Stage(s6, TextSet(f.endDate), OnOrBefore(f));
    FilterAssetsChain(assets, f);
    forall a | a in assets
      ensures Condition(f)(a) == Satisfies(a, f)
    {
      ConditionIsSatisfies(f, a);
    }
    FilterSame(assets, Condition(f), (a: Asset) => Satisfies(a, f));
    s7
  }

  /** The chain of stages is one filter by the accumulated condition. */
  lemma FilterAssetsChain(assets: seq<Asset>, f: ReportFilters)
    ensures
      var s1 := Stage(assets, YearSet(f.year), InYear(f));
      var s2 := Stage(s1, TextSet(f.location), LocationHas(f));
      var s3 := Stage(s2, TextSet(f.name), NameHas(f));
      var s4 := Stage(s3, TextSet(f.status), HasStatus(f.status.GetOr("")));
      var s5 := Stage(s4, TextSet(f.assetType), HasType(f.assetType.GetOr("")));
      var s6 := Stage(s5, TextSet(f.startDate), OnOrAfter(f));
      Stage(s6, TextSet(f.endDate), OnOrBefore(f)) == Filter(assets, Condition(f))
  {
    var all := (a: Asset) => true;
    FilterAll(assets, all);
    var c1 := AndAlso(all, YearSet(f.year), InYear(f));
    StageFilter(assets, all, YearSet(f.year), InYear(f));
    var c2 := AndAlso(c1, TextSet(f.location), LocationHas(f));
    StageFilter(assets, c1, TextSet(f.location), LocationHas(f));
    var c3 := AndAlso(c2, TextSet(f.name), NameHas(f));
    StageFilter(assets, c2, TextSet(f.name), NameHas(f));
    var c4 := AndAlso(c3, TextSet(f.status), HasStatus(f.status.GetOr("")));
    StageFilter(assets, c3, TextSet(f.status), HasStatus(f.status.GetOr("")));
    var c5 := AndAlso(c4, TextSet(f.assetType), HasType(f.assetType.GetOr("")));
    StageFilter(assets, c4, TextSet(f.assetType), HasType(f.assetType.GetOr("")));
    var c6 := AndAlso(c5, TextSet(f.startDate), OnOrAfter(f));
    StageFilter(assets, c5, TextSet(f.startDate), OnOrAfter(f));
    StageFilter(assets, c6, TextSet(f.endDate), OnOrBefore(f));
  }

  /** With no criterion set the report covers the whole inventory. */
  lemma FilterAssetsNoCriteria(assets: seq<Asset>, f: ReportFilters)
    requires !YearSet(f.year) && !TextSet(f.location) && !TextSet(f.name) && !TextSet(f.status)
    requires !TextSet(f.assetType) && !TextSet(f.startDate) && !TextSet(f.endDate)
    ensures FilterAssets(assets, f) == assets
  {
    FilterAll(assets, (a: Asset) => Satisfies(a, f));
  }

  /**
   * A date range given as `YYYY-MM-DD` texts of well-formed dates selects the records
   * acquired from the first date to the last, both included.
   */
  lemma FilterAssetsDateRange(a: Asset, f: ReportFilters, from: Date, to: Date)
    requires WellFormedDate(a.date) && WellFormedDate(from) && WellFormedDate(to)
    requires f == ReportFilters(None, None, None, None, None, Some(Iso(from)), Some(Iso(to)))
    ensures Satisfies(a, f) <==> !DateBefore(a.date, from) && !DateBefore(to, a.date)
  {
    IsoOrder(a.date, from);
    IsoOrder(a.date, to);
  }

  // ---------------------------------------------------------------------------
  // Distinct years and locations.

  /** `(a, b) => b - a` as an order: larger years first. */
  function Later(): (int, int) -> bool {
    (x: int, y: int) => x > y
  }

  /** The default `sort()` order on strings. */
  function StringOrder(): (string, string) -> bool {
    (x: string, y: string) => LexLess(x, y)
  }

  lemma StringOrderIsStrictTotal()
    ensures StrictTotalOrder(StringOrder())
  {
    forall x: string
      ensures !StringOrder()(x, x)
    {
      LexLessIrreflexive(x);
    }
    forall x: string, y: string | x != y
      ensures StringOrder()(x, y) || StringOrder()(y, x)
    {
      LexLessTotal(x, y);
    }
    forall x: string, y: string, z: string | StringOrder()(x, y) && StringOrder()(y, z)
      ensures StringOrder()(x, z)
    {
      LexLessTransitive(x, y, z);
    }
  }

  /** `getUniqueYears`: each acquisition year once, latest first. */
  function UniqueYears(assets: seq<Asset>): (years: seq<int>)
    ensures StrictlySorted(years, Later())
    ensures forall y :: y in years <==> exists a | a in assets :: a.date.year == y
  {
    var all := seq(|assets|, i requires 0 <= i < |assets| => assets[i].date.year as int);
    SortedDistinctCorrect(all, Later());
    assert forall y :: y in all <==> exists a | a in assets :: a.date.year == y by {
      forall y | y in all
        ensures exists a | a in assets :: a.date.year == y
      {
        var i :| 0 <= i < |all| && all[i] == y;
        assert assets[i] in assets;
      }
      forall a | a in assets
        ensures a.date.year as int in all
      {
        var i :| 0 <= i < |assets| && assets[i] == a;
        assert all[i] == a.date.year as int;
      }
    }
    SortedDistinct(all, Later())
  }

  /** `getUniqueLocations`: each location once, in string order. */
  function UniqueLocations(assets: seq<Asset>): (locations: seq<string>)
    ensures StrictlySorted(locations, StringOrder())
    ensures forall l :: l in locations <==> exists a | a in assets :: a.location == l
  {
    var all := seq(|assets|, i requires 0 <= i < |assets| => assets[i].location);
    StringOrderIsStrictTotal();
    SortedDistinctCorrect(all, StringOrder());
    assert forall l :: l in all <==> exists a | a in assets :: a.location == l by {
      forall l | l in all
        ensures exists a | a in assets :: a.location == l
      {
        var i :| 0 <= i < |all| && all[i] == l;
        assert assets[i] in assets;
      }
      forall a | a in assets
        ensures a.location in all
      {
        var i :| 0 <= i < |assets| && assets[i] == a;
        assert all[i] == a.location;
      }
    }
    SortedDistinct(all, StringOrder())
  }

  // ---------------------------------------------------------------------------
  // Depreciation as the store reports it.

  /** The store's own rate table. */
  const SERVICE_RATES: map<string, real> := map[
    "Edificaciones" := 0.05,
    "Instalaciones, maquinaria, equipos y muebles" := 0.10,
    "Vehículos y equipo caminero" := 0.20,
    "Equipos de cómputo y software" := 0.33,
    "Barcazas y aeronaves" := 0.05,
    "Aviones de fumigación" := 0.25,
    "Otros aviones" := 0.10,
    "Equipo ferroviario" := 0.06,
    "Vehículos de carga" := 0.25,
    "Vehículos eléctricos ligeros" := 0.25,
    "Equipos de Laboratorio" := 0.10
  ]

  /** The copy agrees with the model's table. */
  lemma ServiceRatesMatchModel()
    ensures SERVICE_RATES == DEPRECIATION_RATES
  {
  }

  /**
   * `calculateDepreciation` after `elapsedDays` days: floor-of-years straight line by the
   * type's rate; its percentage is the annual rate in percent, and the whole years are reported.
   */
  function CalculateDepreciation(asset: Asset, elapsedDays: int): (d: Depreciation)
    ensures d.porcentaje == Finite(RateFor(DEPRECIATION_RATES, asset.assetType) * 100.0)
    ensures d.anosUso == Some(YearsOfUse(elapsedDays))
    ensures d.mensual * 12.0 == d.anual
    ensures d.anual == OriginalValue(asset) * RateFor(DEPRECIATION_RATES, asset.assetType)
    ensures d.acumulada == FloorDepreciation(DEPRECIATION_RATES, asset, elapsedDays).accumulated
    ensures d.valorActual == FloorDepreciation(DEPRECIATION_RATES, asset, elapsedDays).currentValue
    ensures elapsedDays >= 0 && OriginalValue(asset) >= 0.0 ==>
      0.0 <= d.acumulada <= OriginalValue(asset) && d.valorActual + d.acumulada == OriginalValue(asset)
  {
    ServiceRatesMatchModel();
    var r := TableDepreciation(asset, elapsedDays);
    Depreciation(r.annual, Monthly(r), r.accumulated, r.currentValue, Finite(r.rate * 100.0), Some(r.yearsOfUse))
  }

  /**
   * The store's percentage is the rate, not the share already written off: a computer
   * bought less than a year ago has nothing accumulated yet and still reports 33%.
   */
  lemma CalculateDepreciationPercentIsRate(asset: Asset, elapsedDays: int)
    requires asset.assetType == "Equipos de cómputo y software"
    requires 0 <= elapsedDays <= 365 && OriginalValue(asset) > 0.0
    ensures CalculateDepreciation(asset, elapsedDays).acumulada == 0.0
    ensures CalculateDepreciation(asset, elapsedDays).porcentaje == Finite(33.0)
  {
    var d := CalculateDepreciation(asset, elapsedDays);
    assert YearsOfUse(elapsedDays) == 0;
    RateForModelTable(asset.assetType);
    assert asset.assetType in ASSET_TYPES;
  }

  /** An asset together with its depreciation. */
  datatype AssetWithDepreciation = AssetWithDepreciation(asset: Asset, depreciation: Depreciation)

  /** `getAssetsWithDepreciation`, each asset's elapsed days given by `elapsedDays`. */
  function AssetsWithDepreciation(assets: seq<Asset>, elapsedDays: Asset -> int): (r: seq<AssetWithDepreciation>)
    ensures |r| == |assets|
    ensures forall i :: 0 <= i < |r| ==>
      r[i].asset == assets[i] && r[i].depreciation == CalculateDepreciation(assets[i], elapsedDays(assets[i]))
    ensures forall i :: 0 <= i < |r| ==> r[i].depreciation.anosUso == Some(YearsOfUse(elapsedDays(assets[i])))
  {
    seq(|assets|, i requires 0 <= i < |assets| =>
      AssetWithDepreciation(assets[i], CalculateDepreciation(assets[i], elapsedDays(assets[i]))))
  }
}
