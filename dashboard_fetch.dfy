/**
 * What the dashboard keeps from each request to its server: the field the
 * answer carries when it is there, otherwise the built-in sample data or
 * default, the same value that is used when the request throws.
 */
module DashboardFetch {
  import opened Options
  import opened Dashboard

  /**
   * The outcome of one request: it threw, or it answered with a body in which
   * the field read by the dashboard may be missing. A missing body, a missing
   * field and a `null` field are all `None`; a list or an object that is
   * there, even an empty one, is truthy and so is `Some`.
   */
  datatype Response<T> = Threw | Answered(field: Option<T>)

  /** `response.data?.field || fallback` inside a `try` whose `catch` also takes `fallback`. */
  function OrFallback<T>(r: Response<T>, fallback: T): (v: T)
    ensures r.Answered? && r.field.Some? ==> v == r.field.value
    ensures r.Threw? || r.field.None? ==> v == fallback
  {
    match r
    case Threw => fallback
    case Answered(field) => field.GetOr(fallback)
  }

  /** The sample areas the dashboard shows when the server gives none. */
  const MockAreas: seq<Area> := [
    Area(1, "Jaguaruana", "Mamão", 250, 85, 75, "-4.8356, -37.7811"),
    Area(2, "Russas", "Banana", 180, 92, 88, "-4.9394, -37.9761"),
    Area(3, "Aracati", "Coco", 320, 78, 82, "-4.5614, -37.7697")
  ]

  /** One row of the fruit statistics: areas, plant count and growth in percent. */
  datatype FruitStat = FruitStat(name: string, areas: int, count: int, growth: int, color: string)

  const MockFruitStats: seq<FruitStat> := [
    FruitStat("Mamão", 8, 1580, 12, "#10b981"),
    FruitStat("Banana", 6, 1240, 8, "#f59e0b"),
    FruitStat("Coco", 4, 890, -2, "#8b5cf6")
  ]

  /** An alert as the server sends it. */
  datatype Alert = Alert(kind: string, title: string, description: string, time: string)

  /** The number of monitored regions in each zone of the state. */
  datatype MapStats = MapStats(litoral: int, sertao: int, vale: int)

  /** The region counts shown before the first answer. */
  const InitialMapStats := MapStats(0, 0, 0)

  /** The region counts used when the server gives none. */
  const FallbackMapStats := MapStats(2, 3, 1)

  /** fetchAreasData: the server's list of areas, or the sample areas. */
  function FetchAreasData(r: Response<seq<Area>>): (areas: seq<Area>)
    ensures r.Answered? && r.field.Some? ==> areas == r.field.value
    ensures r.Threw? || r.field.None? ==> areas == MockAreas
  {
    OrFallback(r, MockAreas)
  }

  /** fetchFruitStats: the server's fruit statistics, or the sample statistics. */
  function FetchFruitStats(r: Response<seq<FruitStat>>): (fruits: seq<FruitStat>)
    ensures r.Answered? && r.field.Some? ==> fruits == r.field.value
    ensures r.Threw? || r.field.None? ==> fruits == MockFruitStats
  {
    OrFallback(r, MockFruitStats)
  }

  /** fetchAlerts: the server's alerts, or none at all. */
  function FetchAlerts(r: Response<seq<Alert>>): (alerts: seq<Alert>)
    ensures r.Answered? && r.field.Some? ==> alerts == r.field.value
    ensures r.Threw? || r.field.None? ==> alerts == []
  {
    OrFallback(r, [])
  }

  /** fetchMapStats: the body of the server's answer, or the fallback counts. */
  function FetchMapStats(r: Response<MapStats>): (stats: MapStats)
    ensures r.Answered? && r.field.Some? ==> stats == r.field.value
    ensures r.Threw? || r.field.None? ==> stats == FallbackMapStats
  {
    OrFallback(r, FallbackMapStats)
  }

  /**
   * The list of areas is empty after fetchAreasData exactly when the server
   * answered with an empty list: every other outcome gives the server's
   * non-empty list or the three sample areas.
   */
  lemma AreasEmptyOnlyWhenServerSaysSo(r: Response<seq<Area>>)
    ensures |FetchAreasData(r)| == 0 <==> r == Answered(Some([]))
  {
  }

  /** There are no alerts exactly when the request threw, or the answer held no alerts or an empty list. */
  lemma NoAlertsExactly(r: Response<seq<Alert>>)
    ensures |FetchAlerts(r)| == 0 <==> r.Threw? || r.field.None? || r.field == Some([])
  {
  }

  /** After fetchMapStats the counts are all zero only when the server sent zeros. */
  lemma MapStatsLeaveInitial(r: Response<MapStats>)
    ensures FetchMapStats(r) == InitialMapStats <==> r == Answered(Some(InitialMapStats))
  {
  }

  /** The four lists and counts that fetchDashboardData loads. */
  datatype DashboardData = DashboardData(areas: seq<Area>, fruits: seq<FruitStat>, alerts: seq<Alert>, mapStats: MapStats)

  /** The state before the first load: empty lists and zero counts. */
  const InitialData := DashboardData([], [], [], InitialMapStats)

  /**
   * fetchDashboardData: each part of the page takes its own request's field
   * when the answer carries it, and its own fallback otherwise; no request's
   * outcome reaches another part.
   */
  function LoadDashboard(areas: Response<seq<Area>>, fruits: Response<seq<FruitStat>>,
                         alerts: Response<seq<Alert>>, mapStats: Response<MapStats>): (d: DashboardData)
    ensures areas.Answered? && areas.field.Some? ==> d.areas == areas.field.value
    ensures areas.Threw? || areas.field.None? ==> d.areas == MockAreas
    ensures fruits.Answered? && fruits.field.Some? ==> d.fruits == fruits.field.value
    ensures fruits.Threw? || fruits.field.None? ==> d.fruits == MockFruitStats
    ensures alerts.Answered? && alerts.field.Some? ==> d.alerts == alerts.field.value
    ensures alerts.Threw? || alerts.field.None? ==> d.alerts == []
    ensures mapStats.Answered? && mapStats.field.Some? ==> d.mapStats == mapStats.field.value
    ensures mapStats.Threw? || mapStats.field.None? ==> d.mapStats == FallbackMapStats
  {
    DashboardData(FetchAreasData(areas), FetchFruitStats(fruits), FetchAlerts(alerts), FetchMapStats(mapStats))
  }

  /** With the server down, the dashboard shows the sample data, no alerts and the fallback counts. */
  lemma OfflineDashboard()
    ensures LoadDashboard(Threw, Threw, Threw, Threw) == DashboardData(MockAreas, MockFruitStats, [], FallbackMapStats)
  {
  }

  /**
   * refreshAreaData: when the request for one area answers, that area takes
   * the fields of the answer (a missing body spreads nothing); when it
   * throws, the whole list is fetched again, with `refetch` as that outcome.
   */
  function RefreshAreaData(prev: seq<Area>, areaId: int, r: Response<AreaPatch>, refetch: Response<seq<Area>>): (areas: seq<Area>)
    ensures r.Threw? ==> areas == FetchAreasData(refetch)
    ensures r.Answered? ==> |areas| == |prev|
    ensures r.Answered? ==> forall i :: 0 <= i < |prev| && prev[i].id != areaId ==> areas[i] == prev[i]
    ensures r.Answered? ==> forall i :: 0 <= i < |prev| && prev[i].id == areaId ==>
      areas[i] == ApplyPatch(prev[i], r.field.GetOr(EmptyPatch))
  {
    match r
    case Threw => FetchAreasData(refetch)
    case Answered(patch) => MergeById(prev, areaId, patch.GetOr(EmptyPatch))
  }

  /** An answer without a body leaves the list exactly as it was. */
  lemma RefreshWithoutBody(prev: seq<Area>, areaId: int, refetch: Response<seq<Area>>)
    ensures RefreshAreaData(prev, areaId, Answered(None), refetch) == prev
  {
    MergeWithoutEffect(prev, areaId, EmptyPatch);
  }

  /** Refreshing an area twice with the same answer is refreshing it once. */
  lemma RefreshIdempotent(prev: seq<Area>, areaId: int, p: AreaPatch, refetch: Response<seq<Area>>)
    ensures var once := RefreshAreaData(prev, areaId, Answered(Some(p)), refetch);
            RefreshAreaData(once, areaId, Answered(Some(p)), refetch) == once
  {
    MergeIdempotent(prev, areaId, p);
  }

  /** Sums over a list of three areas. */
  lemma SumByThree(a: Area, b: Area, c: Area, f: Area -> int)
    ensures SumBy([a, b, c], f) == f(a) + f(b) + f(c)
  {
    assert [a, b, c][..2] == [a, b] && [a, b][..1] == [a] && [a][..0] == [];
    assert SumBy([a], f) == f(a);
    assert SumBy([a, b], f) == f(a) + f(b);
  }

  /** The sample areas add up to 750 hectares with an average health of 85. */
  lemma MockAreasCards()
    ensures TotalArea(MockAreas) == 750
    ensures AvgHealth(MockAreas) == 85
  {
    SumByThree(MockAreas[0], MockAreas[1], MockAreas[2], Size);
    SumByThree(MockAreas[0], MockAreas[1], MockAreas[2], Health);
    assert MockAreas == [MockAreas[0], MockAreas[1], MockAreas[2]];
  }

  /** Filtering a list of three areas keeps those of them that are shown. */
  lemma FilterThree(a: Area, b: Area, c: Area, selectedFilter: string)
    ensures FilterAreas([a, b, c], selectedFilter)
         == (if Shown(selectedFilter, a) then [a] else [])
          + (if Shown(selectedFilter, b) then [b] else [])
          + (if Shown(selectedFilter, c) then [c] else [])
  {
    assert [a, b, c] == [a] + [b, c] && [b, c] == [b] + [c] && [c] == [c] + [];
    FilterCons(a, [b, c], selectedFilter);
    FilterCons(b, [c], selectedFilter);
    FilterCons(c, [], selectedFilter);
  }

  /** Of the sample areas only Russas is healthy; the other two are on alert. */
  lemma MockAreasFilters()
    ensures FilterAreas(MockAreas, "healthy") == [MockAreas[1]]
    ensures FilterAreas(MockAreas, "alert") == [MockAreas[0], MockAreas[2]]
  {
    var a, b, c := MockAreas[0], MockAreas[1], MockAreas[2];
    assert MockAreas == [a, b, c];
    FilterThree(a, b, c, "healthy");
    FilterThree(a, b, c, "alert");
  }
}
