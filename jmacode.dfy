/**
 * The command-line program's two searches, step by step: the loops over the
 * search hits, the per-candidate early exits, the filter of an office's
 * temperature points by the AMeDAS stations of the Class10 area, and the
 * `unique` list that suppresses a point code already written.
 */
module JmaCode {
  import opened Wrappers
  import opened Jma
  import opened Output
  import opened Resolution

  /** The office's temperature points whose code is a station code, kept in point-list order. */
  method CollectMatches(points: seq<PointArea>, amedas: set<Code>) returns (results: seq<PointArea>)
    ensures results == Matches(points, amedas)
  {
    results := [];
    for j := 0 to |points|
      invariant results == Matches(points[..j], amedas)
    {
      var point := points[j];
      assert points[..j + 1][..j] == points[..j];
      if point.code in amedas {
        results := results + [point];
      }
    }
    assert points[..|points|] == points;
  }

  /**
   * Writes one record per match whose point code is not yet in `unique`,
   * adding that code to `unique`; `unique` stays the list of codes written.
   */
  method EmitNew(records: seq<ResultRecord>, unique: seq<Code>, office: CodedArea, results: seq<PointArea>)
    returns (records': seq<ResultRecord>, unique': seq<Code>)
    requires unique == PointCodes(records)
    ensures records' == Admit(records, ToRecords(office, results))
    ensures unique' == PointCodes(records')
  {
    ghost var offered := ToRecords(office, results);
    records', unique' := records, unique;
    for j := 0 to |results|
      invariant records' == Admit(records, offered[..j])
      invariant unique' == PointCodes(records')
    {
      var res := results[j];
      assert offered[..j + 1][..j] == offered[..j];
      if res.code in unique' {
        continue;
      } else {
        unique' := unique' + [res.code];
      }
      records' := records' + [ResultRecord(office.code, office.area.name, res.code, res.name)];
    }
    assert offered[..|results|] == offered;
  }

  /**
   * The temperature-point search for `city`: one "not found" diagnostic when
   * no Class20 area matches; otherwise every candidate in turn, with the
   * records and diagnostics that `Resolve` describes.
   */
  method SearchTemperaturePointCode(city: string, cat: Catalogs)
    returns (records: seq<ResultRecord>, diagnostics: seq<Diagnostic>)
    ensures Report(records, diagnostics) == Resolve(city, cat)
    ensures DistinctCodes(records)
  {
    var cityClass20List := cat.areas.searchClass20s(city);
    if |cityClass20List| == 0 {
      return [], [CityNotFound(city)];
    }
    var unique: seq<Code> := [];
    records, diagnostics := [], [];
    for i := 0 to |cityClass20List|
      invariant records == Dedup(AllOffered(cityClass20List[..i], cat))
      invariant diagnostics == AllComplaints(cityClass20List[..i], cat)
      invariant unique == PointCodes(records)
    {
      var cityClass20 := cityClass20List[i];
      ghost var done := cityClass20List[..i];
      assert cityClass20List[..i + 1] == done + [cityClass20];
      AdmitAppend([], AllOffered(done, cat), Offered(cityClass20, cat));
      var cityClass10 := cat.areas.ancestor(cityClass20, Class10);
      if cityClass10.None? {
        diagnostics := diagnostics + [Class10Missing(cityClass20)];
        continue;
      }
      var cityOffice := cat.areas.ancestor(cityClass20, Office);
      if cityOffice.None? {
        diagnostics := diagnostics + [OfficeMissing(cityClass20)];
        continue;
      }
      var amedas := cat.forecastAreas.amedasByClass10(cityClass10.value.code);
      if amedas.None? {
        continue;
      }
      var temperaturePoints := cat.forecasts.temperaturePoints(cityOffice.value.code);
      var results := CollectMatches(temperaturePoints, amedas.value);
      if |results| == 0 {
        diagnostics := diagnostics + [NoTemperaturePoints(cityClass20.area.name)];
      }
      records, unique := EmitNew(records, unique, cityOffice.value, results);
    }
    assert cityClass20List[..|cityClass20List|] == cityClass20List;
    DedupFirstOccurrences(AllOffered(cityClass20List, cat));
  }

  /**
   * The plain search for `city`: one "not found" diagnostic when nothing
   * matches; otherwise one record per hit, in the catalogue's order.
   */
  method SearchCode(city: string, areas: Areas) returns (records: seq<CodedArea>, diagnostics: seq<Diagnostic>)
    ensures areas.search(city) == [] ==> records == [] && diagnostics == [CityNotFound(city)]
    ensures areas.search(city) != [] ==> records == areas.search(city) && diagnostics == []
  {
    var areaList := areas.search(city);
    if |areaList| == 0 {
      return [], [CityNotFound(city)];
    }
    records, diagnostics := [], [];
    for i := 0 to |areaList|
      invariant records == areaList[..i]
    {
      records := records + [areaList[i]];
    }
  }
}
