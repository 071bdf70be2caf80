/**
 * What the temperature-point search computes, stated candidate by candidate:
 * each Class20 candidate either is skipped (with or without a diagnostic) or
 * offers the records of its office's temperature points that are AMeDAS
 * stations of its Class10 area; the query emits the first occurrence of each
 * point code among all offered records, and every candidate's diagnostics.
 */
module Resolution {
  import opened Wrappers
  import opened Jma
  import opened Output

  /** The temperature points whose code is one of the station codes, in point-list order. */
  function Matches(points: seq<PointArea>, stations: set<Code>): seq<PointArea>
    decreases |points|
  {
    if points == [] then []
    else
      var init, p := points[..|points| - 1], points[|points| - 1];
      Matches(init, stations) + if p.code in stations then [p] else []
  }

  /**
   * Each point occurs among the matches as often as in the point list when
   * its code is a station code, and not at all otherwise.
   */
  lemma {:induction false} MatchesCount(points: seq<PointArea>, stations: set<Code>)
    ensures forall p :: (multiset(Matches(points, stations))[p] ==
      if p.code in stations then multiset(points)[p] else 0)
    ensures forall p :: p in Matches(points, stations) <==> p in points && p.code in stations
    decreases |points|
  {
    if points != [] {
      var init, p := points[..|points| - 1], points[|points| - 1];
      assert points == init + [p];
      MatchesCount(init, stations);
    }
  }

  /** Filtering keeps the order: it distributes over concatenation. */
  lemma {:induction false} MatchesAppend(a: seq<PointArea>, b: seq<PointArea>, stations: set<Code>)
    ensures Matches(a + b, stations) == Matches(a, stations) + Matches(b, stations)
    decreases |b|
  {
    if b == [] {
      assert a + b == a;
    } else {
      var init := b[..|b| - 1];
      assert (a + b)[..|a + b| - 1] == a + init;
      MatchesAppend(a, init, stations);
    }
  }

  /** How one candidate is handled before deduplication. */
  datatype Decision =
    | Skipped(diagnostic: Option<Diagnostic>)
    | Matched(office: CodedArea, matches: seq<PointArea>)

  function Decide(c: CodedArea, cat: Catalogs): Decision {
    match cat.areas.ancestor(c, Class10)
    case None => Skipped(Some(Class10Missing(c)))
    case Some(class10) =>
      match cat.areas.ancestor(c, Office)
      case None => Skipped(Some(OfficeMissing(c)))
      case Some(office) =>
        match cat.forecastAreas.amedasByClass10(class10.code)
        case None => Skipped(None)
        case Some(amedas) => Matched(office, Matches(cat.forecasts.temperaturePoints(office.code), amedas))
  }

  /** The records of `points`, each paired with the office that publishes it. */
  function ToRecords(office: CodedArea, points: seq<PointArea>): seq<ResultRecord> {
    seq(|points|, i requires 0 <= i < |points| =>
      ResultRecord(office.code, office.area.name, points[i].code, points[i].name))
  }

  /** The records candidate `c` offers to the deduplication. */
  function Offered(c: CodedArea, cat: Catalogs): seq<ResultRecord> {
    match Decide(c, cat)
    case Skipped(_) => []
    case Matched(office, ms) => ToRecords(office, ms)
  }

  /** The diagnostics candidate `c` causes. */
  function Complaints(c: CodedArea, cat: Catalogs): seq<Diagnostic> {
    match Decide(c, cat)
    case Skipped(None) => []
    case Skipped(Some(d)) => [d]
    case Matched(_, ms) => if ms == [] then [NoTemperaturePoints(c.area.name)] else []
  }

  function AllOffered(cs: seq<CodedArea>, cat: Catalogs): seq<ResultRecord>
    decreases |cs|
  {
    if cs == [] then [] else AllOffered(cs[..|cs| - 1], cat) + Offered(cs[|cs| - 1], cat)
  }

  function AllComplaints(cs: seq<CodedArea>, cat: Catalogs): seq<Diagnostic>
    decreases |cs|
  {
    if cs == [] then [] else AllComplaints(cs[..|cs| - 1], cat) + Complaints(cs[|cs| - 1], cat)
  }

  /** The report for a list of Class20 candidates. */
  function Run(cs: seq<CodedArea>, cat: Catalogs): Report {
    Report(Dedup(AllOffered(cs, cat)), AllComplaints(cs, cat))
  }

  /** The report of a temperature-point query for `city`. */
  function Resolve(city: string, cat: Catalogs): Report {
    var cs := cat.areas.searchClass20s(city);
    if cs == [] then Report([], [CityNotFound(city)]) else Run(cs, cat)
  }

  lemma {:induction false} AllOfferedAppend(a: seq<CodedArea>, b: seq<CodedArea>, cat: Catalogs)
    ensures AllOffered(a + b, cat) == AllOffered(a, cat) + AllOffered(b, cat)
    decreases |b|
  {
    if b == [] {
      assert a + b == a;
    } else {
      var init, c := b[..|b| - 1], b[|b| - 1];
      assert (a + b)[..|a + b| - 1] == a + init;
      assert (a + b)[|a + b| - 1] == c;
      AllOfferedAppend(a, init, cat);
      calc {
        AllOffered(a + b, cat);
        AllOffered(a + init, cat) + Offered(c, cat);
        AllOffered(a, cat) + AllOffered(init, cat) + Offered(c, cat);
        AllOffered(a, cat) + AllOffered(b, cat);
      }
    }
  }

  lemma {:induction false} AllComplaintsAppend(a: seq<CodedArea>, b: seq<CodedArea>, cat: Catalogs)
    ensures AllComplaints(a + b, cat) == AllComplaints(a, cat) + AllComplaints(b, cat)
    decreases |b|
  {
    if b == [] {
      assert a + b == a;
    } else {
      var init, c := b[..|b| - 1], b[|b| - 1];
      assert (a + b)[..|a + b| - 1] == a + init;
      assert (a + b)[|a + b| - 1] == c;
      AllComplaintsAppend(a, init, cat);
      calc {
        AllComplaints(a + b, cat);
        AllComplaints(a + init, cat) + Complaints(c, cat);
        AllComplaints(a, cat) + AllComplaints(init, cat) + Complaints(c, cat);
        AllComplaints(a, cat) + AllComplaints(b, cat);
      }
    }
  }

  /**
   * A candidate that offers no record (skipped, or with no matching point)
   * changes no record and adds only its own diagnostics.
   */
  lemma RecordlessCandidateIsolated(before: seq<CodedArea>, c: CodedArea, after: seq<CodedArea>, cat: Catalogs)
    requires Offered(c, cat) == []
    ensures Run(before + [c] + after, cat).records == Run(before + after, cat).records
    ensures Run(before + [c] + after, cat).diagnostics ==
      AllComplaints(before, cat) + Complaints(c, cat) + AllComplaints(after, cat)
  {
    var all := before + [c] + after;
    assert AllOffered(all, cat) == AllOffered(before + after, cat) by {
      assert [c][..0] == [];
      assert AllOffered([c], cat) == [];
      AllOfferedAppend(before, [c], cat);
      AllOfferedAppend(before + [c], after, cat);
      AllOfferedAppend(before, after, cat);
    }
    assert AllComplaints(all, cat) == AllComplaints(before, cat) + Complaints(c, cat) + AllComplaints(after, cat) by {
      assert [c][..0] == [];
      assert AllComplaints([c], cat) == Complaints(c, cat);
      AllComplaintsAppend(before, [c], cat);
      AllComplaintsAppend(before + [c], after, cat);
    }
  }

  /**
   * A candidate without a Class10 ancestor emits no record and exactly one
   * diagnostic naming it; the other candidates are processed as without it.
   */
  lemma Class10MissingIsolated(before: seq<CodedArea>, c: CodedArea, after: seq<CodedArea>, cat: Catalogs)
    requires cat.areas.ancestor(c, Class10).None?
    ensures Run(before + [c] + after, cat).records == Run(before + after, cat).records
    ensures Run(before + [c] + after, cat).diagnostics ==
      AllComplaints(before, cat) + [Class10Missing(c)] + AllComplaints(after, cat)
  {
    assert Offered(c, cat) == [];
    RecordlessCandidateIsolated(before, c, after, cat);
  }

  /**
   * A candidate with a Class10 ancestor but no Office ancestor emits no
   * record and exactly one diagnostic naming it; the others are unaffected.
   */
  lemma OfficeMissingIsolated(before: seq<CodedArea>, c: CodedArea, after: seq<CodedArea>, cat: Catalogs)
    requires cat.areas.ancestor(c, Class10).Some? && cat.areas.ancestor(c, Office).None?
    ensures Run(before + [c] + after, cat).records == Run(before + after, cat).records
    ensures Run(before + [c] + after, cat).diagnostics ==
      AllComplaints(before, cat) + [OfficeMissing(c)] + AllComplaints(after, cat)
  {
    assert Offered(c, cat) == [];
    RecordlessCandidateIsolated(before, c, after, cat);
  }

  /**
   * A candidate whose Class10 area has no station entry is skipped silently:
   * the report is the one without that candidate.
   */
  lemma NoStationsSilent(before: seq<CodedArea>, c: CodedArea, after: seq<CodedArea>, cat: Catalogs)
    requires cat.areas.ancestor(c, Class10).Some? && cat.areas.ancestor(c, Office).Some?
    requires cat.forecastAreas.amedasByClass10(cat.areas.ancestor(c, Class10).value.code).None?
    ensures Run(before + [c] + after, cat) == Run(before + after, cat)
  {
    assert Complaints(c, cat) == [] && Offered(c, cat) == [];
    RecordlessCandidateIsolated(before, c, after, cat);
    assert Run(before + [c] + after, cat).diagnostics == Run(before + after, cat).diagnostics by {
      AllComplaintsAppend(before, after, cat);
    }
  }

  /**
   * A candidate that reaches the point lookup but matches no point (its
   * station set may even be empty) emits no record and exactly one "no
   * temperature points" diagnostic; the others are processed as without it.
   */
  lemma NoTemperaturePointsIsolated(before: seq<CodedArea>, c: CodedArea, after: seq<CodedArea>, cat: Catalogs)
    requires Decide(c, cat).Matched? && Decide(c, cat).matches == []
    ensures Run(before + [c] + after, cat).records == Run(before + after, cat).records
    ensures Run(before + [c] + after, cat).diagnostics ==
      AllComplaints(before, cat) + [NoTemperaturePoints(c.area.name)] + AllComplaints(after, cat)
  {
    assert Offered(c, cat) == [];
    RecordlessCandidateIsolated(before, c, after, cat);
  }

  /**
   * The point codes of a query's records are pairwise distinct; they are
   * exactly the codes offered by its candidates; each record is the first
   * offered record with its code, and records keep the order of those first
   * occurrences (candidate order, then point order).
   */
  lemma ResolveEmitsFirstOccurrences(city: string, cat: Catalogs)
    requires cat.areas.searchClass20s(city) != []
    ensures var recs, offered := Resolve(city, cat).records, AllOffered(cat.areas.searchClass20s(city), cat);
      && DistinctCodes(recs)
      && (forall k :: k in PointCodes(recs) <==> k in PointCodes(offered))
      && (forall i :: 0 <= i < |recs| ==>
            recs[i].pointCode in PointCodes(offered) &&
            recs[i] == offered[FirstIndex(PointCodes(offered), recs[i].pointCode)])
      && (forall i, j :: 0 <= i < j < |recs| ==>
            recs[i].pointCode in PointCodes(offered) && recs[j].pointCode in PointCodes(offered) &&
            FirstIndex(PointCodes(offered), recs[i].pointCode) < FirstIndex(PointCodes(offered), recs[j].pointCode))
  {
    DedupFirstOccurrences(AllOffered(cat.areas.searchClass20s(city), cat));
  }

  /** Every offered record pairs the office of a candidate with one of its matched points. */
  lemma {:induction false} OfferedProvenance(cs: seq<CodedArea>, cat: Catalogs, r: ResultRecord)
    requires r in AllOffered(cs, cat)
    ensures exists i :: (0 <= i < |cs| && Decide(cs[i], cat).Matched? &&
      r.officeCode == Decide(cs[i], cat).office.code &&
      r.officeName == Decide(cs[i], cat).office.area.name &&
      exists p :: p in Decide(cs[i], cat).matches && r.pointCode == p.code && r.pointName == p.name)
    decreases |cs|
  {
    var init, c := cs[..|cs| - 1], cs[|cs| - 1];
    if r in AllOffered(init, cat) {
      OfferedProvenance(init, cat, r);
      var i :| 0 <= i < |init| && Decide(init[i], cat).Matched? &&
        r.officeCode == Decide(init[i], cat).office.code &&
        r.officeName == Decide(init[i], cat).office.area.name &&
        exists p :: p in Decide(init[i], cat).matches && r.pointCode == p.code && r.pointName == p.name;
      assert cs[i] == init[i];
    } else {
      assert r in Offered(c, cat);
      var k :| 0 <= k < |Offered(c, cat)| && Offered(c, cat)[k] == r;
      assert Decide(c, cat).matches[k] in Decide(c, cat).matches;
    }
  }

  /**
   * Every emitted record pairs the office code and name of some candidate
   * with the code and name of one of that candidate's matched points.
   */
  lemma RecordProvenance(city: string, cat: Catalogs, r: ResultRecord)
    requires r in Resolve(city, cat).records
    ensures var cs := cat.areas.searchClass20s(city);
      exists i :: (0 <= i < |cs| && Decide(cs[i], cat).Matched? &&
        r.officeCode == Decide(cs[i], cat).office.code &&
        r.officeName == Decide(cs[i], cat).office.area.name &&
        exists p :: p in Decide(cs[i], cat).matches && r.pointCode == p.code && r.pointName == p.name)
  {
    var cs := cat.areas.searchClass20s(city);
    var offered := AllOffered(cs, cat);
    DedupFirstOccurrences(offered);
    var k :| 0 <= k < |Dedup(offered)| && Dedup(offered)[k] == r;
    assert r in offered;
    OfferedProvenance(cs, cat, r);
  }

  /**
   * A candidate whose matches were all emitted by earlier candidates adds
   * neither a record nor a diagnostic.
   */
  lemma AllDuplicatesSilent(cs: seq<CodedArea>, c: CodedArea, cat: Catalogs)
    requires Offered(c, cat) != []
    requires forall r :: r in Offered(c, cat) ==> r.pointCode in PointCodes(Run(cs, cat).records)
    ensures Run(cs + [c], cat) == Run(cs, cat)
  {
    assert (cs + [c])[..|cs + [c]| - 1] == cs;
    AdmitAppend([], AllOffered(cs, cat), Offered(c, cat));
    AdmitKnown(Dedup(AllOffered(cs, cat)), Offered(c, cat));
  }

  /**
   * "No temperature points" is reported for a candidate exactly when it
   * reached the point lookup and none of its office's points is a station
   * of its Class10 area.
   */
  lemma NoTemperaturePointsIff(c: CodedArea, cat: Catalogs)
    ensures NoTemperaturePoints(c.area.name) in Complaints(c, cat) <==>
      Decide(c, cat).Matched? && Decide(c, cat).matches == []
  {
  }

  /** A Class20 ward "Chiyoda-ku" (code 131010) under the Class10 area "Tokyo" (130010) and the office "Tokyo-to" (130000). */
  function ChiyodaWard(): CodedArea {
    CodedArea("131010", Class20, Area("Chiyoda-ku", "Chiyoda", Some("130010"), None, None))
  }

  /**
   * Catalogues in which "Chiyoda" finds only the Chiyoda ward, whose Class10
   * area holds station "44132", which the office publishes as its one
   * temperature point "Tokyo".
   */
  function ChiyodaCatalogs(): Catalogs {
    var ward := ChiyodaWard();
    var tokyo := CodedArea("130010", Class10, Area("Tokyo", "Tokyo", Some("130000"), None, None));
    var office := CodedArea("130000", Office, Area("Tokyo-to", "Tokyo", Some("010300"), None, None));
    Catalogs(
      Areas(
        (q: string) => [],
        (q: string) => if q == "Chiyoda" then [ward] else [],
        (a: CodedArea, level: AreaClass) =>
          if a == ward && level == Class10 then Some(tokyo)
          else if a == ward && level == Office then Some(office)
          else None),
      ForecastAreaDb((k: Code) => if k == "130010" then Some({"44132"}) else None),
      Forecasts((k: Code) => if k == "130000" then [PointArea("44132", "Tokyo")] else []))
  }

  /** Querying "Chiyoda" there yields exactly the one record and no diagnostic. */
  lemma ChiyodaScenario()
    ensures Resolve("Chiyoda", ChiyodaCatalogs()) ==
      Report([ResultRecord("130000", "Tokyo-to", "44132", "Tokyo")], [])
  {
    var ward, cat := ChiyodaWard(), ChiyodaCatalogs();
    var office := CodedArea("130000", Office, Area("Tokyo-to", "Tokyo", Some("010300"), None, None));
    var point := PointArea("44132", "Tokyo");
    var rec := ResultRecord("130000", "Tokyo-to", "44132", "Tokyo");
    assert [point][..0] == [];
    assert Matches([point], {"44132"}) == [point];
    assert Decide(ward, cat) == Matched(office, [point]);
    assert Offered(ward, cat) == [rec];
    assert [ward][..0] == [];
    assert AllOffered([ward], cat) == [rec];
    assert AllComplaints([ward], cat) == [];
    assert [rec][..0] == [];
    assert Dedup([rec]) == [rec];
  }
}
