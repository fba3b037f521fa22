/**
 * The filter test of `pkg/clients/filter_test.go`: four incidents, a filter on
 * cluster `eu-de-2` and alertname `VVOLDatastoreNotAccessibleFromHost`; only the
 * `[EU-DE-2]` incident passes.
 *
 * Every fact about a literal is proved in a lemma of its own, so that no single
 * proof has to evaluate the normalisation of several literals at once.
 */
module FilterFixtures {
  import opened Wrappers
  import opened Strings
  import opened Correlator
  import opened PagerdutyTypes
  import opened Filters
  import opened CorrelatorFixtures

  const TestClusters: Option<seq<string>> := Some(["eu-de-2"])
  const TestAlertname := "VVOLDatastoreNotAccessibleFromHost"

  /** Normalising text without white space only lower-cases it. */
  lemma NormalizeSpaceFree(s: string)
    requires NoSpace(s)
    ensures NormalizeString(s) == ToLower(s)
  {
    var l := ToLower(s);
    forall k | 0 <= k < |l| ensures !IsSpace(l[k]) {
      assert l[k] == LowerChar(s[k]);
    }
    TrimSpaceOfNoSpace(l);
  }

  /** The test filter keeps a summary exactly when it parses into cluster `eu-de-2` and the filter's alertname. */
  lemma TestVerdict(summary: string, region: string, name: string)
    requires ParseRegionAndAlertname(summary) == Ok((region, name))
    ensures Keeps(TestClusters, TestAlertname, summary)
      <==> region == "eu-de-2" && name == NormalizeString(TestAlertname)
  {
    KeepsOfParse(TestClusters, TestAlertname, summary, region, name);
  }

  /** A summary from any other cluster is dropped, whatever its alertname. */
  lemma OtherClusterDropped(summary: string, region: string, name: string)
    requires ParseRegionAndAlertname(summary) == Ok((region, name)) && region != "eu-de-2"
    ensures !Keeps(TestClusters, TestAlertname, summary)
  {
    TestVerdict(summary, region, name);
  }

  /** The region of a summary, normalised: upper-case letters become lower-case. */
  lemma RegionEuDe1()
    ensures NormalizeString("EU-DE-1") == "eu-de-1"
  {
    NormalizeSpaceFree("EU-DE-1");
    LowerEuDe1();
  }

  lemma LowerEuDe1()
    ensures ToLower("EU-DE-1") == "eu-de-1"
  {
  }

  lemma RegionApSa1()
    ensures NormalizeString("AP-SA-1") == "ap-sa-1"
  {
    NormalizeSpaceFree("AP-SA-1");
    LowerApSa1();
  }

  lemma LowerApSa1()
    ensures ToLower("AP-SA-1") == "ap-sa-1"
  {
  }

  lemma RegionEuDe2()
    ensures NormalizeString("EU-DE-2") == "eu-de-2"
  {
    NormalizeSpaceFree("EU-DE-2");
    LowerEuDe2();
  }

  lemma LowerEuDe2()
    ensures ToLower("EU-DE-2") == "eu-de-2"
  {
  }

  lemma RegionEuNl1()
    ensures NormalizeString("EU-NL-1") == "eu-nl-1"
  {
    NormalizeSpaceFree("EU-NL-1");
    LowerEuNl1();
  }

  lemma LowerEuNl1()
    ensures ToLower("EU-NL-1") == "eu-nl-1"
  {
  }

  lemma LbaasRegion()
    ensures ParseRegionAndAlertname(LbaasSummary).Ok?
    ensures ParseRegionAndAlertname(LbaasSummary).value.0 == "eu-de-1"
  {
    LbaasSummaryParses();
    RegionEuDe1();
  }

  lemma IronicRegion()
    ensures ParseRegionAndAlertname(IronicSummary).Ok?
    ensures ParseRegionAndAlertname(IronicSummary).value.0 == "ap-sa-1"
  {
    IronicSummaryParses();
    RegionApSa1();
  }

  lemma DatastoreParts()
    ensures ParseRegionAndAlertname(DatastoreSummary) == Ok(("eu-de-2", NormalizeString(TestAlertname)))
  {
    DatastoreSummaryParses();
    RegionEuDe2();
  }

  lemma NeutronRegion()
    ensures ParseRegionAndAlertname(NeutronSummary).Ok?
    ensures ParseRegionAndAlertname(NeutronSummary).value.0 == "eu-nl-1"
  {
    NeutronSummaryParses();
    RegionEuNl1();
  }

  lemma LbaasDropped()
    ensures !Keeps(TestClusters, TestAlertname, LbaasSummary)
  {
    LbaasRegion();
    var p := ParseRegionAndAlertname(LbaasSummary).value;
    OtherClusterDropped(LbaasSummary, p.0, p.1);
  }

  lemma IronicDropped()
    ensures !Keeps(TestClusters, TestAlertname, IronicSummary)
  {
    IronicRegion();
    var p := ParseRegionAndAlertname(IronicSummary).value;
    OtherClusterDropped(IronicSummary, p.0, p.1);
  }

  lemma DatastoreKept()
    ensures Keeps(TestClusters, TestAlertname, DatastoreSummary)
  {
    DatastoreParts();
    TestVerdict(DatastoreSummary, "eu-de-2", NormalizeString(TestAlertname));
  }

  lemma NeutronDropped()
    ensures !Keeps(TestClusters, TestAlertname, NeutronSummary)
  {
    NeutronRegion();
    var p := ParseRegionAndAlertname(NeutronSummary).value;
    OtherClusterDropped(NeutronSummary, p.0, p.1);
  }

  /** Of four incidents, a selection that holds only for the third returns just that one. */
  lemma WhereThirdOfFour(p: Incident -> bool, a: Incident, b: Incident, c: Incident, d: Incident)
    requires !p(a) && !p(b) && p(c) && !p(d)
    ensures Where([a, b, c, d], p) == [c]
  {
    assert [a][..0] == [];
    assert Where([a], p) == [];
    assert [a, b][..1] == [a];
    assert Where([a, b], p) == [];
    assert [a, b, c][..2] == [a, b];
    assert Where([a, b, c], p) == [c];
    assert [a, b, c, d][..3] == [a, b, c];
  }

  /** Only the `[EU-DE-2]` incident passes the test's filter. */
  lemma FilterTestKeepsDatastore()
    ensures Kept(TestClusters, TestAlertname,
      [SummaryOnly(LbaasSummary), SummaryOnly(IronicSummary), SummaryOnly(DatastoreSummary), SummaryOnly(NeutronSummary)])
      == [SummaryOnly(DatastoreSummary)]
  {
    LbaasDropped();
    IronicDropped();
    DatastoreKept();
    NeutronDropped();
    WhereThirdOfFour(KeepsIncident(TestClusters, TestAlertname),
      SummaryOnly(LbaasSummary), SummaryOnly(IronicSummary), SummaryOnly(DatastoreSummary), SummaryOnly(NeutronSummary));
  }
}
