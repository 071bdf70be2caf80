/**
 * What one query produces: the `[area]` records written to standard output,
 * the diagnostics written to standard error, and the first-occurrence
 * deduplication of records by point code.
 */
module Output {
  import opened Jma

  /** One `[area]` block: the office and the temperature point it publishes. */
  datatype ResultRecord = ResultRecord(officeCode: Code, officeName: string, pointCode: Code, pointName: string)

  /** The kinds of message written to standard error, with what each names. */
  datatype Diagnostic =
    | CityNotFound(city: string)
    | Class10Missing(candidate: CodedArea)
    | OfficeMissing(candidate: CodedArea)
    | NoTemperaturePoints(cityName: string)

  /** Everything one query writes: records on one stream, diagnostics on the other. */
  datatype Report = Report(records: seq<ResultRecord>, diagnostics: seq<Diagnostic>)

  function PointCodes(rs: seq<ResultRecord>): seq<Code> {
    seq(|rs|, i requires 0 <= i < |rs| => rs[i].pointCode)
  }

  predicate DistinctCodes(rs: seq<ResultRecord>) {
    forall i, j :: 0 <= i < j < |rs| ==> rs[i].pointCode != rs[j].pointCode
  }

  /**
   * Appends to `emitted`, in order, each record of `offered` whose point code
   * is not yet among the codes emitted so far.
   */
  function Admit(emitted: seq<ResultRecord>, offered: seq<ResultRecord>): seq<ResultRecord>
    decreases |offered|
  {
    if offered == [] then emitted
    else
      var kept := Admit(emitted, offered[..|offered| - 1]);
      var r := offered[|offered| - 1];
      if r.pointCode in PointCodes(kept) then kept else kept + [r]
  }

  /** The records of `rs` that carry the first occurrence of their point code. */
  function Dedup(rs: seq<ResultRecord>): seq<ResultRecord> {
    Admit([], rs)
  }

  /** The position of the first occurrence of `k` in `cs`. */
  function FirstIndex(cs: seq<Code>, k: Code): (i: nat)
    requires k in cs
    ensures i < |cs| && cs[i] == k && k !in cs[..i]
    decreases |cs|
  {
    if k in cs[..|cs| - 1] then FirstIndex(cs[..|cs| - 1], k)
    else
      assert cs == cs[..|cs| - 1] + [cs[|cs| - 1]];
      |cs| - 1
  }

  /** Admitting two batches one after the other is admitting their concatenation. */
  lemma {:induction false} AdmitAppend(emitted: seq<ResultRecord>, first: seq<ResultRecord>, second: seq<ResultRecord>)
    ensures Admit(emitted, first + second) == Admit(Admit(emitted, first), second)
    decreases |second|
  {
    if second == [] {
      assert first + second == first;
    } else {
      var init := second[..|second| - 1];
      assert (first + second)[..|first + second| - 1] == first + init;
      AdmitAppend(emitted, first, init);
    }
  }

  /** A batch whose every point code has already been emitted adds nothing. */
  lemma {:induction false} AdmitKnown(emitted: seq<ResultRecord>, offered: seq<ResultRecord>)
    requires forall r :: r in offered ==> r.pointCode in PointCodes(emitted)
    ensures Admit(emitted, offered) == emitted
    decreases |offered|
  {
    if offered != [] {
      AdmitKnown(emitted, offered[..|offered| - 1]);
      assert offered[|offered| - 1] in offered;
    }
  }

  /**
   * Dedup keeps exactly one record per point code of `rs` (codes are
   * pairwise distinct and the same codes occur), each kept record is the
   * first one in `rs` with its code, and the kept records appear in the
   * order of those first occurrences.
   */
  lemma {:induction false} DedupFirstOccurrences(rs: seq<ResultRecord>)
    ensures DistinctCodes(Dedup(rs))
    ensures forall k :: k in PointCodes(Dedup(rs)) <==> k in PointCodes(rs)
    ensures forall i :: 0 <= i < |Dedup(rs)| ==>
      Dedup(rs)[i].pointCode in PointCodes(rs) &&
      Dedup(rs)[i] == rs[FirstIndex(PointCodes(rs), Dedup(rs)[i].pointCode)]
    ensures forall i, j :: 0 <= i < j < |Dedup(rs)| ==>
      Dedup(rs)[i].pointCode in PointCodes(rs) && Dedup(rs)[j].pointCode in PointCodes(rs) &&
      FirstIndex(PointCodes(rs), Dedup(rs)[i].pointCode) < FirstIndex(PointCodes(rs), Dedup(rs)[j].pointCode)
    decreases |rs|
  {
    if rs != [] {
      var init, r := rs[..|rs| - 1], rs[|rs| - 1];
      DedupFirstOccurrences(init);
      var d0, d := Dedup(init), Dedup(rs);
      var cs0, cs := PointCodes(init), PointCodes(rs);
      assert rs == init + [r];
      assert cs == cs0 + [r.pointCode];
      assert cs[..|cs| - 1] == cs0;
      assert forall k :: k in cs0 ==> FirstIndex(cs, k) == FirstIndex(cs0, k);
      assert forall i :: 0 <= i < |init| ==> rs[i] == init[i];
      if r.pointCode in PointCodes(d0) {
        assert d == d0;
      } else {
        assert d == d0 + [r];
        assert PointCodes(d) == PointCodes(d0) + [r.pointCode];
        assert r.pointCode !in cs0;
        assert FirstIndex(cs, r.pointCode) == |init|;
      }
    }
  }
}
