/**
 * The incident filter of `pkg/clients/filter.go`: cluster and alertname criteria
 * taken from free text, a page-size limit, and the filtering of an incident list
 * by the region and alertname the correlator reads from each summary.
 */
module Filters {
  import opened Wrappers
  import opened Strings
  import Slice
  import opened Correlator
  import ClusterParse
  import opened PagerdutyTypes

  /**
   * What the filter decides for one summary: it must parse, its region must be
   * one of `clusters` when that list is set, and its alertname must equal the
   * normalised `alertname` when that is not empty.
   */
  predicate Keeps(clusters: Option<seq<string>>, alertname: string, summary: string) {
    var p := ParseRegionAndAlertname(summary);
    && p.Ok?
    && (clusters.None? || Slice.Contains(clusters.value, p.value.0))
    && (alertname == "" || NormalizeString(alertname) == p.value.1)
  }

  /** The elements of `xs` that satisfy `p`, in order. */
  function Where(xs: seq<Incident>, p: Incident -> bool): (r: seq<Incident>)
    ensures |r| <= |xs|
  {
    if xs == [] then []
    else
      var n := |xs| - 1;
      Where(xs[..n], p) + (if p(xs[n]) then [xs[n]] else [])
  }

  /** The filter's verdict on a summary that parses to `(region, name)`. */
  lemma KeepsOfParse(clusters: Option<seq<string>>, alertname: string, summary: string, region: string, name: string)
    requires ParseRegionAndAlertname(summary) == Ok((region, name))
    ensures Keeps(clusters, alertname, summary) <==>
      (clusters.None? || region in clusters.value) && (alertname == "" || NormalizeString(alertname) == name)
  {
  }

  /** `Keeps`, applied to an incident's summary. */
  function KeepsIncident(clusters: Option<seq<string>>, alertname: string): Incident -> bool {
    (x: Incident) => Keeps(clusters, alertname, x.summary)
  }

  /** The incidents the filter keeps, in their original order. */
  function Kept(clusters: Option<seq<string>>, alertname: string, incidents: seq<Incident>): seq<Incident>
  {
    Where(incidents, KeepsIncident(clusters, alertname))
  }

  /** `Filter`: set fields are criteria; `limit` is the page size once set. */
  class Filter {
    var clusters: Option<seq<string>>
    var alertname: string
    var severity: string
    var fingerprint: string
    var limit: Option<nat>

    /** A filter literal: the given criteria, no limit. */
    constructor (clusters: Option<seq<string>>, alertname: string, severity: string, fingerprint: string)
      ensures this.clusters == clusters && this.alertname == alertname
      ensures this.severity == severity && this.fingerprint == fingerprint
      ensures limit == None && GetLimit() == 100
    {
      this.clusters := clusters;
      this.alertname := alertname;
      this.severity := severity;
      this.fingerprint := fingerprint;
      limit := None;
    }

    /** Takes the clusters named in `text`; changes nothing when none is found. */
    method ClusterFilterFromText(text: string) returns (err: Option<string>)
      modifies this
      ensures ClusterParse.ParseClusterFromString(text).Err? ==>
        err == Some(ClusterParse.ParseClusterFromString(text).error) && unchanged(this)
      ensures ClusterParse.ParseClusterFromString(text).Ok? ==>
        err == None && clusters == Some(ClusterParse.ParseClusterFromString(text).value)
      ensures alertname == old(alertname) && severity == old(severity)
      ensures fingerprint == old(fingerprint) && limit == old(limit)
    {
      var parsed := ClusterParse.ParseClusterFromString(text);
      if parsed.Err? {
        return Some(parsed.error);
      }
      clusters := Some(parsed.value);
      return None;
    }

    /**
     * Takes the alertname the correlator reads from `text`, normalised; changes
     * nothing when `text` does not parse.
     */
    method AlertnameFilterFromText(text: string) returns (err: Option<string>)
      modifies this
      ensures ParseRegionAndAlertname(text).Err? ==>
        err == Some(ParseRegionAndAlertname(text).error) && unchanged(this)
      ensures ParseRegionAndAlertname(text).Ok? ==>
        err == None && alertname == ParseRegionAndAlertname(text).value.1 && Normalised(alertname)
      ensures clusters == old(clusters) && severity == old(severity)
      ensures fingerprint == old(fingerprint) && limit == old(limit)
    {
      var parsed := ParseRegionAndAlertname(text);
      if parsed.Err? {
        return Some(parsed.error);
      }
      var name := parsed.value.1;
      ParseNormalised(text);
      NormalisedFixedPoint(name);
      alertname := NormalizeString(name);
      return None;
    }

    method SetLimit(n: nat)
      modifies this
      ensures limit == Some(n) && GetLimit() == n
      ensures clusters == old(clusters) && alertname == old(alertname)
      ensures severity == old(severity) && fingerprint == old(fingerprint)
    {
      limit := Some(n);
    }

    /** A segment of `ToString`, present only when its criterion is set. */
    static function Segment(isSet: bool, text: string): (r: string)
      ensures isSet ==> r == text
      ensures !isSet ==> r == []
    {
      if isSet then text else []
    }

    /** The page size: 100 until a limit is set. */
    function GetLimit(): nat
      reads this
    {
      if limit.Some? then limit.value else 100
    }

    /**
     * The set criteria as `alertname=…`, `, severity=…`, `, fingerprint=…` and
     * `, clusters=…` (joined by commas), in that order.
     */
    function ToString(): (r: string)
      reads this
      ensures r == Segment(alertname != [], "alertname=" + alertname)
        + Segment(severity != [], ", severity=" + severity)
        + Segment(fingerprint != [], ", fingerprint=" + fingerprint)
        + Segment(clusters.Some?, ", clusters=" + (if clusters.Some? then Join(clusters.value, ",") else []))
      ensures r == [] <==> alertname == [] && severity == [] && fingerprint == [] && clusters.None?
      ensures alertname != [] ==> "alertname=" + alertname <= r
      ensures alertname == [] && severity != [] ==> ", severity=" + severity <= r
      ensures clusters.Some? ==> EndsWith(r, ", clusters=" + Join(clusters.value, ","))
    {
      (if alertname != [] then "alertname=" + alertname else [])
        + (if severity != [] then ", severity=" + severity else [])
        + (if fingerprint != [] then ", fingerprint=" + fingerprint else [])
        + (if clusters.Some? then ", clusters=" + Join(clusters.value, ",") else [])
    }

    /** `FilterIncidents`: the kept incidents, in order. */
    method FilterIncidents(incidents: seq<Incident>) returns (res: seq<Incident>)
      ensures res == Kept(clusters, alertname, incidents)
    {
      ghost var p := KeepsIncident(clusters, alertname);
      res := [];
      for i := 0 to |incidents|
        invariant res == Where(incidents[..i], p)
      {
        assert incidents[..i + 1][..i] == incidents[..i];
        var inc := incidents[i];
        var parsed := ParseRegionAndAlertname(inc.summary);
        if parsed.Err? {
          continue;
        }
        var keep := true;
        if clusters.Some? && !Slice.Contains(clusters.value, parsed.value.0) {
          keep := false;
        }
        if alertname != "" && NormalizeString(alertname) != parsed.value.1 {
          keep := false;
        }
        if keep {
          res := res + [inc];
        }
      }
      assert incidents[..|incidents|] == incidents;
    }
  }

  /** `s` ends with `t`. */
  predicate EndsWith(s: string, t: string) {
    |t| <= |s| && s[|s| - |t|..] == t
  }

  lemma {:induction false} WhereSubsequence(xs: seq<Incident>, p: Incident -> bool)
    ensures Slice.IsSubsequence(Where(xs, p), xs)
  {
    if xs == [] {
      Slice.SubsequenceNil(xs);
    } else {
      var n := |xs| - 1;
      WhereSubsequence(xs[..n], p);
      Slice.SubsequenceSnoc(Where(xs[..n], p), xs[..n], xs[n], p(xs[n]));
      assert xs[..n] + [xs[n]] == xs;
    }
  }

  lemma {:induction false} WhereMembers(xs: seq<Incident>, p: Incident -> bool, x: Incident)
    ensures x in Where(xs, p) <==> x in xs && p(x)
  {
    if xs != [] {
      var n := |xs| - 1;
      WhereMembers(xs[..n], p, x);
      assert xs == xs[..n] + [xs[n]];
    }
  }

  /** The kept incidents are a subsequence of the input: nothing added, nothing reordered. */
  lemma KeptSubsequence(clusters: Option<seq<string>>, alertname: string, incidents: seq<Incident>)
    ensures Slice.IsSubsequence(Kept(clusters, alertname, incidents), incidents)
  {
    WhereSubsequence(incidents, KeepsIncident(clusters, alertname));
  }

  /** An incident is kept exactly when it is in the input and the filter keeps its summary. */
  lemma KeptMembers(clusters: Option<seq<string>>, alertname: string, incidents: seq<Incident>, x: Incident)
    ensures x in Kept(clusters, alertname, incidents) <==> x in incidents && Keeps(clusters, alertname, x.summary)
  {
    WhereMembers(incidents, KeepsIncident(clusters, alertname), x);
  }

  /**
   * What is kept parses, lies in one of the clusters when those are set, and carries
   * the normalised filter alertname when one is set.
   */
  lemma KeptParses(clusters: Option<seq<string>>, alertname: string, incidents: seq<Incident>, x: Incident)
    requires x in Kept(clusters, alertname, incidents)
    ensures ParseRegionAndAlertname(x.summary).Ok?
    ensures clusters.Some? ==> ParseRegionAndAlertname(x.summary).value.0 in clusters.value
    ensures alertname != "" ==> ParseRegionAndAlertname(x.summary).value.1 == NormalizeString(alertname)
  {
    KeptMembers(clusters, alertname, incidents, x);
  }

  /** An incident whose summary does not parse is dropped, whatever the criteria. */
  lemma UnparsableDropped(clusters: Option<seq<string>>, alertname: string, incidents: seq<Incident>, x: Incident)
    requires ParseRegionAndAlertname(x.summary).Err?
    ensures x !in Kept(clusters, alertname, incidents)
  {
    KeptMembers(clusters, alertname, incidents, x);
  }

  /** With no criteria set, the filter still drops every incident whose summary does not parse. */
  lemma {:induction false} EmptyFilterKeepsParsable(incidents: seq<Incident>)
    ensures forall x :: x in Kept(None, "", incidents) <==> x in incidents && ParseRegionAndAlertname(x.summary).Ok?
  {
    forall x ensures x in Kept(None, "", incidents) <==> x in incidents && ParseRegionAndAlertname(x.summary).Ok? {
      KeptMembers(None, "", incidents, x);
    }
  }
}
