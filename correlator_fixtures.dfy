/**
 * The incident summaries of `pkg/clients/filter_test.go` and the chat-message texts
 * of `pkg/clients/util_test.go`, run through the correlator.
 */
module CorrelatorFixtures {
  import opened Wrappers
  import opened Strings
  import opened Correlator

  /** The first line of a PagerDuty summary: the incident number in brackets. */
  function SummaryHead(id: string): string {
    "[" + id + " \n"
  }

  /** The part of a summary the pattern captures from: ` [<region>] <alertname> -`. */
  function SummaryMid(region: string, alertname: string): string {
    " [" + region + "] " + alertname + " -"
  }

  /**
   * The layout of a PagerDuty summary: `[<id> \n<noise> [<region>] <alertname> -<tail>`,
   * where `id` carries the closing bracket of the incident number.
   */
  function SummaryText(id: string, noise: string, region: string, alertname: string, tail: string): string {
    SummaryHead(id) + noise + SummaryMid(region, alertname) + tail
  }

  /** The conditions under which a summary laid out this way parses to its region and alertname. */
  predicate WellFormedSummary(id: string, noise: string, region: string, alertname: string, tail: string) {
    && NoBracketFrom(id, 0)
    && '\n' !in noise && (noise == [] || noise[0] != '[')
    && IsRegionToken(region)
    && PlainAlertname(alertname)
    && NoBracketFrom(tail, 0)
  }

  /** An alertname the summary layout can carry: not empty, no newline, `-` or `[`. */
  predicate PlainAlertname(x: string) {
    |x| > 0 && forall k :: 0 <= k < |x| ==> x[k] != '\n' && x[k] != '-' && x[k] != '['
  }

  /** No `[` in `s` from position `lo` on. */
  predicate NoBracketFrom(s: string, lo: nat) {
    forall k :: lo <= k < |s| ==> s[k] != '['
  }

  /** `m` is a piece of `s` starting at position `w`. */
  predicate Placed(s: string, w: int, m: string) {
    0 <= w && w + |m| <= |s| && forall k :: 0 <= k < |m| ==> s[w + k] == m[k]
  }

  /** The first line: ends in a newline, no `[` but the first character. */
  predicate HeadShape(h: string) {
    |h| >= 1 && h[|h| - 1] == '\n' && NoBracketFrom(h, 1)
  }

  /** ` [<region>] <alertname> -` with an alertname free of newline, `-` and `[`. */
  predicate MidShape(m: string, region: string, alertname: string) {
    var e := 2 + |region|;
    var a := e + 2 + |alertname|;
    && |m| == a + 2
    && m[0] == ' ' && m[1] == '[' && m[2..e] == region && m[e] == ']' && m[e + 1] == ' '
    && m[e + 2..a] == alertname && m[a] == ' ' && m[a + 1] == '-'
    && NoBracketFrom(m, 2)
    && (forall k :: e + 2 <= k < a ==> m[k] != '\n' && m[k] != '-')
  }

  lemma HeadFacts(id: string)
    requires NoBracketFrom(id, 0)
    ensures HeadShape(SummaryHead(id)) && |SummaryHead(id)| == |id| + 3
  {
    var h := SummaryHead(id);
    forall k | 1 <= k < |h| ensures h[k] != '[' {
      if k <= |id| {
        assert h[k] == id[k - 1];
      }
    }
  }

  lemma MidFacts(region: string, alertname: string)
    requires NoBracketFrom(region, 0) && PlainAlertname(alertname)
    ensures MidShape(SummaryMid(region, alertname), region, alertname)
  {
    var m := SummaryMid(region, alertname);
    var e := 2 + |region|;
    var a := e + 2 + |alertname|;
    forall k | 2 <= k < |m| ensures m[k] != '[' {
      if k < e {
        assert m[k] == region[k - 2];
      } else if e + 2 <= k < a {
        assert m[k] == alertname[k - e - 2];
      }
    }
    forall k | e + 2 <= k < a ensures m[k] != '\n' && m[k] != '-' {
      assert m[k] == alertname[k - e - 2];
    }
  }

  /** The four pieces of `h + n + m + t` sit one after the other. */
  lemma ConcatPlaced(h: string, n: string, m: string, t: string)
    ensures var s := h + n + m + t;
      |s| == |h| + |n| + |m| + |t|
      && Placed(s, 0, h) && Placed(s, |h|, n) && Placed(s, |h| + |n|, m) && Placed(s, |h| + |n| + |m|, t)
  {
  }

  /** Nothing in the first line can open a match, nor its last character followed by the second line. */
  lemma HeadNoOpen(s: string, h: string, n: string, m: string)
    requires Placed(s, 0, h) && Placed(s, |h|, n) && Placed(s, |h| + |n|, m)
    requires HeadShape(h) && (n == [] || n[0] != '[') && |m| >= 1 && m[0] == ' '
    ensures forall v :: 0 <= v < |h| ==> !Opens(s, v)
  {
    forall v | 0 <= v < |h| ensures !Opens(s, v) {
      if v + 1 < |h| {
        assert s[v + 1] == h[v + 1];
      } else if n != [] {
        assert s[v + 1] == n[0];
      } else {
        assert s[v + 1] == m[0];
      }
    }
  }

  /** No `\s[` after the one that opens the region. */
  lemma MidNoOpen(s: string, w: int, m: string, t: string)
    requires Placed(s, w, m) && Placed(s, w + |m|, t) && |s| == w + |m| + |t|
    requires NoBracketFrom(m, 2) && NoBracketFrom(t, 0)
    ensures forall v :: w < v <= |s| ==> !Opens(s, v)
  {
    forall v | w < v <= |s| ensures !Opens(s, v) {
      if v + 1 < w + |m| {
        assert s[v + 1] == m[v + 1 - w];
      } else if v + 1 < |s| {
        assert s[v + 1] == t[v + 1 - w - |m|];
      }
    }
  }

  /** The shape of the captured part carries over to where it sits in `s`. */
  lemma MidMatch(s: string, w: int, m: string, region: string, alertname: string)
    requires Placed(s, w, m) && MidShape(m, region, alertname)
    requires IsRegionToken(region) && |alertname| > 0
    ensures var e := w + 2 + |region|;
      var a := e + 2 + |alertname|;
      && MatchShape(s, w, e, a)
      && (forall a' :: e + 2 < a' < a ==> !Delim(s, a'))
      && s[w + 2..e] == region && s[e + 2..a] == alertname
  {
    var e := w + 2 + |region|;
    var a := e + 2 + |alertname|;
    assert s[w + 2..e] == m[2..e - w];
    assert s[e + 2..a] == m[e - w + 2..a - w];
    assert NewlineFree(s, e + 2, a) by {
      forall k | e + 2 <= k < a ensures s[k] != '\n' {
        assert s[k] == m[k - w];
      }
    }
    assert AlertAt(s, e + 2, a);
    forall a' | e + 2 < a' < a ensures !Delim(s, a') {
      assert s[a' + 1] == m[a' + 1 - w];
    }
  }

  /**
   * A string made of a first line, a bracket-free second-line prefix, the captured
   * part and a bracket-free tail parses at the captured part.
   */
  lemma PiecesParse(s: string, h: string, n: string, m: string, t: string, region: string, alertname: string)
    requires |s| == |h| + |n| + |m| + |t|
    requires Placed(s, 0, h) && Placed(s, |h|, n) && Placed(s, |h| + |n|, m) && Placed(s, |h| + |n| + |m|, t)
    requires HeadShape(h) && '\n' !in n && (n == [] || n[0] != '[')
    requires MidShape(m, region, alertname) && IsRegionToken(region) && |alertname| > 0
    requires NoBracketFrom(t, 0)
    ensures ParseRegionAndAlertname(s) == Ok((NormalizeString(region), NormalizeString(alertname)))
  {
    var w := |h| + |n|;
    var e := w + 2 + |region|;
    var a := e + 2 + |alertname|;
    HeadNoOpen(s, h, n, m);
    MidNoOpen(s, w, m, t);
    MidMatch(s, w, m, region, alertname);
    SecondLine(s, h, n);
    SelectedWhenIsolated(s, |h|, w, e, a, |s|);
    ParseOfSplit(s, w, e, a, region, alertname);
  }

  /** The first line ends in a newline and the second runs on up to the captured part. */
  lemma SecondLine(s: string, h: string, n: string)
    requires Placed(s, 0, h) && Placed(s, |h|, n) && HeadShape(h) && '\n' !in n
    ensures s[|h| - 1] == '\n' && NewlineFree(s, |h|, |h| + |n|)
  {
    assert s[|h| - 1] == h[|h| - 1];
    forall k | |h| <= k < |h| + |n| ensures s[k] != '\n' {
      assert s[k] == n[k - |h|];
    }
  }

  /**
   * A well-formed summary parses to its own region and alertname: nothing before the
   * second line can open a match, the bracket in `noise` never completes one, and
   * nothing after the region opens another.
   */
  lemma SummaryParses(id: string, noise: string, region: string, alertname: string, tail: string)
    requires WellFormedSummary(id, noise, region, alertname, tail)
    ensures ParseRegionAndAlertname(SummaryText(id, noise, region, alertname, tail))
      == Ok((NormalizeString(region), NormalizeString(alertname)))
  {
    var h := SummaryHead(id);
    var m := SummaryMid(region, alertname);
    var s := SummaryText(id, noise, region, alertname, tail);
    assert NoBracketFrom(region, 0);
    HeadFacts(id);
    MidFacts(region, alertname);
    ConcatPlaced(h, noise, m, tail);
    PiecesParse(s, h, noise, m, tail, region, alertname);
  }

  /** The captures of a selected split, with the region's extra lower-casing folded away. */
  lemma ParseOfSplit(s: string, w: nat, e: nat, a: nat, region: string, alertname: string)
    requires ParseSplit(s) == Some(Split(w, e, a))
    requires w + 2 <= e <= a <= |s| && s[w + 2..e] == region && s[e + 2..a] == alertname
    ensures ParseRegionAndAlertname(s) == Ok((NormalizeString(region), NormalizeString(alertname)))
  {
    ParseCaptures(s);
    var sp := ParseSplit(s).value;
    assert sp.w == w && sp.e == e && sp.a == a;
    var x := s[sp.w + 2..sp.e];
    assert x == region;
    NormalizeLower(x);
  }

  /** Lower-casing before normalising changes nothing. */
  lemma NormalizeLower(x: string)
    ensures NormalizeString(ToLower(x)) == NormalizeString(x)
  {
    ToLowerIdempotent(x);
  }

  /** The four incident summaries of the filter test, laid out as `SummaryText` reads them. */
  /** The longer descriptions, in pieces short enough to be checked one by one. */
  const IronicTail := " Sensor Critical" + " for instance " + "node009r-bm020." + "cc.ap-sa-1.cloud" + ".sap\n"
  const DatastoreTail := " vVOL Datastore" + " accessibility " + "check from host\n"

  lemma IronicTailClean()
    ensures '[' !in IronicTail
  {
    assert '[' !in " Sensor Critical" && '[' !in " for instance " && '[' !in "node009r-bm020.";
    assert '[' !in "cc.ap-sa-1.cloud" && '[' !in ".sap\n";
  }

  lemma DatastoreTailClean()
    ensures '[' !in DatastoreTail
  {
    assert '[' !in " vVOL Datastore" && '[' !in " accessibility " && '[' !in "check from host\n";
  }

  const LbaasSummary := SummaryText("#1594]", "", "EU-DE-1", "OpenstackLbaasApiFlapping", " lbaas API flapping\n")
  const IronicSummary := SummaryText("#1598]", "", "AP-SA-1", "BaremetalIronicSensorCritical", IronicTail)
  const DatastoreSummary := SummaryText("#2130]", " [7 Alerts]", "EU-DE-2", "VVOLDatastoreNotAccessibleFromHost", DatastoreTail)
  const NeutronSummary := SummaryText("#2144]", " [3 Alerts]", "EU-NL-1", "OpenstackNeutronDatapathDown", " \n")

  lemma LbaasWellFormed()
    ensures WellFormedSummary("#1594]", "", "EU-DE-1", "OpenstackLbaasApiFlapping", " lbaas API flapping\n")
  {
  }

  /** The summary yields its own region and alertname, both normalised. */
  lemma LbaasSummaryParses()
    ensures ParseRegionAndAlertname(LbaasSummary)
      == Ok((NormalizeString("EU-DE-1"), NormalizeString("OpenstackLbaasApiFlapping")))
  {
    LbaasWellFormed();
    SummaryParses("#1594]", "", "EU-DE-1", "OpenstackLbaasApiFlapping", " lbaas API flapping\n");
  }

  lemma IronicWellFormed()
    ensures WellFormedSummary("#1598]", "", "AP-SA-1", "BaremetalIronicSensorCritical", IronicTail)
  {
    IronicTailClean();
  }

  /** The summary yields its own region and alertname, both normalised. */
  lemma IronicSummaryParses()
    ensures ParseRegionAndAlertname(IronicSummary)
      == Ok((NormalizeString("AP-SA-1"), NormalizeString("BaremetalIronicSensorCritical")))
  {
    IronicWellFormed();
    SummaryParses("#1598]", "", "AP-SA-1", "BaremetalIronicSensorCritical", IronicTail);
  }

  lemma DatastoreWellFormed()
    ensures WellFormedSummary("#2130]", " [7 Alerts]", "EU-DE-2", "VVOLDatastoreNotAccessibleFromHost", DatastoreTail)
  {
    DatastoreTailClean();
  }

  /** The `[7 Alerts]` group before the region is passed over: no region fits in it. */
  lemma DatastoreSummaryParses()
    ensures ParseRegionAndAlertname(DatastoreSummary)
      == Ok((NormalizeString("EU-DE-2"), NormalizeString("VVOLDatastoreNotAccessibleFromHost")))
  {
    DatastoreWellFormed();
    SummaryParses("#2130]", " [7 Alerts]", "EU-DE-2", "VVOLDatastoreNotAccessibleFromHost", DatastoreTail);
  }

  lemma NeutronWellFormed()
    ensures WellFormedSummary("#2144]", " [3 Alerts]", "EU-NL-1", "OpenstackNeutronDatapathDown", " \n")
  {
  }

  /** An empty description after ` - ` still leaves the `\\s\\-` the alertname needs. */
  lemma NeutronSummaryParses()
    ensures ParseRegionAndAlertname(NeutronSummary)
      == Ok((NormalizeString("EU-NL-1"), NormalizeString("OpenstackNeutronDatapathDown")))
  {
    NeutronWellFormed();
    SummaryParses("#2144]", " [3 Alerts]", "EU-NL-1", "OpenstackNeutronDatapathDown", " \n");
  }
}
