/**
 * The alert titles of `pkg/util/parse_test.go` run through the cluster extractor.
 *
 * A title is cut into pieces: pieces in which no match of the pattern can start,
 * and the region tokens, each of which is matched whole. A match of
 * `[\w-]*\w{2}-\w{2}-\d|admin|staging` always contains one of three adjacent pairs
 * (`-` then a digit, `dm` or `ag`), so a piece free of them is passed over.
 */
module ClusterFixtures {
  import opened Wrappers
  import opened Strings
  import opened Correlator
  import opened ClusterParse
  import Slice

  /** A pair of adjacent characters every match contains one of: the `-\d` of the first alternative, the `dm` of `admin`, the `ag` of `staging`. */
  predicate Marker(c: char, d: char) {
    (c == '-' && IsDigit(d)) || (c == 'd' && d == 'm') || (c == 'a' && d == 'g')
  }

  /** No marker pair in `x`. */
  ghost predicate Quiet(x: string) {
    forall p, q :: 0 <= p < q < |x| && q == p + 1 ==> !Marker(x[p], x[q])
  }

  /** A character that can follow in a marker pair: a digit, the `m` of `admin`, the `g` of `staging`. */
  predicate Follow(c: char) {
    IsDigit(c) || c == 'm' || c == 'g'
  }

  /** Nothing after the first character of `x` can follow in a marker pair. */
  predicate NoFollow(x: string) {
    forall i :: 0 < i < |x| ==> !Follow(x[i])
  }

  lemma QuietWithoutFollow(x: string)
    requires NoFollow(x)
    ensures Quiet(x)
  {
    forall p, q | 0 <= p < q < |x| && q == p + 1 ensures !Marker(x[p], x[q]) {
      assert !Follow(x[q]);
    }
  }

  /** No marker pair inside `s[lo..hi]`. */
  ghost predicate QuietSpan(s: string, lo: int, hi: int) {
    0 <= lo <= hi <= |s| && forall p, q :: 0 <= lo <= p < q < hi && q == p + 1 ==> !Marker(s[p], s[q])
  }

  lemma QuietConcat(x: string, y: string)
    requires Quiet(x) && Quiet(y)
    requires x == [] || y == [] || !Marker(x[|x| - 1], y[0])
    ensures Quiet(x + y)
  {
    var s := x + y;
    forall p, q | 0 <= p < q < |s| && q == p + 1 ensures !Marker(s[p], s[q]) {
      if q < |x| {
        assert s[p] == x[p] && s[q] == x[q];
      } else if p >= |x| {
        assert s[p] == y[p - |x|] && s[q] == y[q - |x|];
      } else {
        assert s[p] == x[|x| - 1] && s[q] == y[0];
      }
    }
  }

  /** Every match contains a marker pair, and lies inside a run of `[\w-]` characters. */
  lemma MatchHasMarker(s: string, k: int, e: int)
    ensures Matches(s, k, e) ==>
      (forall j :: k <= j < e ==> IsWordOrDash(s[j]))
      && exists p :: k <= p && p + 1 < e && Marker(s[p], s[p + 1])
  {
    if Matches(s, k, e) {
      MatchesCases(s, k, e);
      var w := s[k..e];
      forall j | k <= j < e ensures IsWordOrDash(s[j]) {
        assert s[j] == w[j - k];
      }
      if TailToken(s, k, e) {
        assert Marker(s[e - 2], s[e - 1]);
      } else if OccursAt(s, "admin", k) {
        assert s[k + 1] == w[1] && s[k + 2] == w[2];
        assert Marker(s[k + 1], s[k + 2]);
      } else {
        assert s[k + 2] == w[2] && s[k + 3] == w[3];
        assert Marker(s[k + 2], s[k + 3]);
      }
    }
  }

  /** A run of `[\w-]` from inside a span cannot pass a non-word character that ends the span. */
  lemma RunWithinSpan(s: string, k: nat, e: int, hi: nat)
    requires k < hi <= |s| && (hi == |s| || !IsWordOrDash(s[hi - 1]))
    ensures e <= |s| && (forall j :: k <= j < e ==> IsWordOrDash(s[j])) ==> e <= hi
  {
  }

  /** No match starts inside a span free of marker pairs that ends at a non-word character or at the end. */
  lemma NoMatchInQuietSpan(s: string, lo: nat, hi: nat)
    requires QuietSpan(s, lo, hi)
    requires hi == |s| || (lo < hi && !IsWordOrDash(s[hi - 1]))
    ensures forall k :: lo <= k < hi ==> MatchAt(s, k) == None
  {
    forall k | lo <= k < hi ensures MatchAt(s, k) == None {
      forall e ensures !Matches(s, k, e) {
        MatchHasMarker(s, k, e);
        RunWithinSpan(s, k, e, hi);
      }
    }
  }

  /** The search passes over positions at which no match starts. */
  lemma {:induction false} SkipNoMatch(s: string, lo: nat, hi: nat)
    requires lo <= hi <= |s|
    requires forall k :: lo <= k < hi ==> MatchAt(s, k) == None
    ensures FindAll(s, lo) == FindAll(s, hi)
    decreases hi - lo
  {
    if lo < hi {
      SkipNoMatch(s, lo + 1, hi);
    }
  }

  /** `s[lo..hi]` holds no marker pair and ends at a non-word character or at the end of `s`. */
  ghost predicate GapSpan(s: string, lo: int, hi: int) {
    QuietSpan(s, lo, hi) && (hi == |s| || (lo < hi && !IsWordOrDash(s[hi - 1])))
  }

  /** `s[j..e]` is a whole `[\w-]` run ending in the tail `\w{2}-\w{2}-\d`. */
  predicate TokenSpan(s: string, j: int, e: int) {
    0 <= j && j + 7 <= e <= |s|
    && (forall k :: j <= k < e ==> IsWordOrDash(s[k]))
    && RegionTailAt(s, e)
    && (e == |s| || !IsWordOrDash(s[e]))
  }

  /** The search passes over a gap. */
  lemma GapSkip(s: string, lo: nat, hi: nat)
    requires GapSpan(s, lo, hi)
    ensures FindAll(s, lo) == FindAll(s, hi)
  {
    NoMatchInQuietSpan(s, lo, hi);
    SkipNoMatch(s, lo, hi);
  }

  /** The run of `[\w-]` from `i` ends at `e` when every character before `e` is in it and the one at `e` is not. */
  lemma {:induction false} RunEndAt(s: string, i: nat, e: nat)
    requires i <= e <= |s|
    requires forall k :: i <= k < e ==> IsWordOrDash(s[k])
    requires e == |s| || !IsWordOrDash(s[e])
    ensures RunEnd(s, i) == e
    decreases e - i
  {
    if i < e {
      RunEndAt(s, i + 1, e);
    }
  }

  /** A token span is found whole, and the search resumes after it. */
  lemma TokenStep(s: string, j: nat, e: nat)
    requires TokenSpan(s, j, e)
    ensures FindAll(s, j) == [s[j..e]] + FindAll(s, e)
  {
    RunEndAt(s, j, e);
  }

  /** `x` is a piece of `s` starting at position `p`. */
  predicate Placed(s: string, p: int, x: string) {
    0 <= p && p + |x| <= |s| && forall k :: 0 <= k < |x| ==> s[p + k] == x[k]
  }

  /** A quiet piece ending at a non-word character, or at the end of `s`, is a gap. */
  lemma GapOfPiece(s: string, lo: nat, x: string)
    requires Placed(s, lo, x) && Quiet(x)
    requires lo + |x| == |s| || (|x| > 0 && !IsWordOrDash(x[|x| - 1]))
    ensures GapSpan(s, lo, lo + |x|)
  {
    var hi := lo + |x|;
    forall p, q | 0 <= lo <= p < q < hi && q == p + 1 ensures !Marker(s[p], s[q]) {
      assert s[p] == x[p - lo] && s[q] == x[q - lo];
    }
    if hi < |s| {
      assert s[hi - 1] == x[|x| - 1];
    }
  }

  /** A region token of the first alternative, such as `LA-BR-1`. */
  predicate Cluster(t: string) {
    AllWordOrDash(t) && RegionTailAt(t, |t|)
  }

  /** A cluster piece followed by a non-word character, or by the end of `s`, is a token span. */
  lemma TokenOfPiece(s: string, j: nat, t: string)
    requires Placed(s, j, t) && Cluster(t)
    requires j + |t| == |s| || !IsWordOrDash(s[j + |t|])
    ensures TokenSpan(s, j, j + |t|)
  {
    var e := j + |t|;
    forall k | j <= k < e ensures s[k] == t[k - j] {
      assert s[k] == t[k - j];
    }
  }

  /** The characters of a piece are a slice of `s`. */
  lemma SliceOfPiece(s: string, p: nat, x: string)
    requires Placed(s, p, x)
    ensures s[p..p + |x|] == x
  {
    forall k | 0 <= k < |x| ensures s[p..p + |x|][k] == x[k] {
      assert s[p + k] == x[k];
    }
  }

  /** A piece `x + y` of `s` splits into its two parts. */
  lemma PlacedSplit(s: string, p: int, x: string, y: string)
    requires Placed(s, p, x + y)
    ensures Placed(s, p, x) && Placed(s, p + |x|, y)
  {
    forall k | 0 <= k < |x| ensures s[p + k] == x[k] {
      assert (x + y)[k] == x[k];
    }
    forall k | 0 <= k < |y| ensures s[p + |x| + k] == y[k] {
      assert s[p + |x| + k] == (x + y)[|x| + k];
    }
  }

  /** The part of an alert title before the cluster: `[<severity>] [`. */
  function Head(severity: string): string {
    "[" + severity + "] ["
  }

  /** The part of an alert title after the cluster: `] <text>`. */
  function Rest(text: string): string {
    "] " + text
  }

  /** An alert title: `[<severity>] [<cluster>] <text>`. */
  function AlertTitle(severity: string, cluster: string, text: string): string {
    Head(severity) + (cluster + Rest(text))
  }

  lemma HeadQuiet(severity: string)
    requires Quiet(severity)
    ensures Quiet(Head(severity)) && |Head(severity)| == |severity| + 4
    ensures Head(severity)[|severity| + 3] == '['
  {
    QuietConcat("[", severity);
    QuietConcat("[" + severity, "] [");
  }

  lemma RestQuiet(text: string)
    requires Quiet(text)
    ensures Quiet(Rest(text)) && |Rest(text)| == |text| + 2 && Rest(text)[0] == ']'
  {
    QuietConcat("] ", text);
  }

  /** Where the pieces of a title sit. */
  lemma TitleLayout(s: string, severity: string, cluster: string, text: string, b: nat, e: nat)
    requires s == AlertTitle(severity, cluster, text)
    requires b == |Head(severity)| && e == b + |cluster|
    ensures e + |Rest(text)| == |s|
    ensures Placed(s, 0, Head(severity)) && Placed(s, b, cluster) && Placed(s, e, Rest(text))
  {
    PlacedSplit(s, 0, Head(severity), cluster + Rest(text));
    PlacedSplit(s, b, cluster, Rest(text));
  }

  /** Where the pieces of a text `<before><second><after>` sit once `] ` is put before it. */
  lemma TextLayout(s: string, p: int, q: int, r: int, before: string, second: string, after: string)
    requires q == p + |Rest(before)| && r == q + |second|
    requires Placed(s, p, Rest(before + (second + after)))
    ensures Placed(s, p, Rest(before)) && Placed(s, q, second) && Placed(s, r, after)
  {
    assert Rest(before + (second + after)) == Rest(before) + (second + after);
    PlacedSplit(s, p, Rest(before), second + after);
    PlacedSplit(s, q, second, after);
  }

  /** A quiet piece ending at a non-word character, then a cluster piece: a gap, then a token span. */
  lemma GapThenToken(s: string, p: nat, g: string, t: string)
    requires Placed(s, p, g) && Quiet(g) && |g| > 0 && !IsWordOrDash(g[|g| - 1])
    requires Placed(s, p + |g|, t) && Cluster(t)
    requires p + |g| + |t| == |s| || !IsWordOrDash(s[p + |g| + |t|])
    ensures GapSpan(s, p, p + |g|) && TokenSpan(s, p + |g|, p + |g| + |t|)
  {
    GapOfPiece(s, p, g);
    TokenOfPiece(s, p + |g|, t);
  }

  /** A gap, then a token: the token is the next thing found. */
  lemma GapTokenStep(s: string, p: nat, q: nat, e: nat)
    requires GapSpan(s, p, q) && TokenSpan(s, q, e)
    ensures FindAll(s, p) == [s[q..e]] + FindAll(s, e)
  {
    GapSkip(s, p, q);
    TokenStep(s, q, e);
  }

  /** Gap, token, gap to the end: the token is all that is found. */
  lemma FoundOne(s: string, b: nat, c: nat)
    requires GapSpan(s, 0, b) && TokenSpan(s, b, c) && GapSpan(s, c, |s|)
    ensures FindAll(s, 0) == [s[b..c]]
  {
    GapTokenStep(s, 0, b, c);
    GapSkip(s, c, |s|);
  }

  /** A quiet piece followed by a cluster piece: the cluster is the next thing found. */
  lemma PieceStep(s: string, p: nat, q: nat, e: nat, g: string, t: string)
    requires q == p + |g| && e == q + |t|
    requires Placed(s, p, g) && Quiet(g) && |g| > 0 && !IsWordOrDash(g[|g| - 1])
    requires Placed(s, q, t) && Cluster(t)
    requires e == |s| || !IsWordOrDash(s[e])
    ensures FindAll(s, p) == [s[q..e]] + FindAll(s, e)
  {
    GapThenToken(s, p, g, t);
    GapTokenStep(s, p, q, e);
  }

  /** A quiet piece that runs to the end: nothing more is found. */
  lemma TailStep(s: string, p: nat, a: string)
    requires Placed(s, p, a) && Quiet(a) && p + |a| == |s|
    ensures FindAll(s, p) == []
  {
    GapOfPiece(s, p, a);
    GapSkip(s, p, |s|);
  }

  /**
   * `s` is a quiet piece `h`, a cluster `c` and a quiet piece `r` that starts with a
   * non-word character: the cluster is all that is found.
   */
  lemma FindOneSpan(s: string, h: string, c: string, r: string, b: nat, e: nat)
    requires b == |h| && e == b + |c| && e + |r| == |s|
    requires Placed(s, 0, h) && Quiet(h) && |h| > 0 && !IsWordOrDash(h[|h| - 1])
    requires Placed(s, b, c) && Cluster(c)
    requires Placed(s, e, r) && Quiet(r) && |r| > 0 && !IsWordOrDash(r[0])
    ensures FindAll(s, 0) == [s[b..e]]
  {
    assert s[e] == r[0];
    GapThenToken(s, 0, h, c);
    GapOfPiece(s, e, r);
    FoundOne(s, b, e);
  }

  /** The cluster of `FindOneSpan`, as the piece itself. */
  lemma FindOne(s: string, h: string, c: string, r: string, b: nat, e: nat)
    requires b == |h| && e == b + |c| && e + |r| == |s|
    requires Placed(s, 0, h) && Quiet(h) && |h| > 0 && !IsWordOrDash(h[|h| - 1])
    requires Placed(s, b, c) && Cluster(c)
    requires Placed(s, e, r) && Quiet(r) && |r| > 0 && !IsWordOrDash(r[0])
    ensures FindAll(s, 0) == [c]
  {
    FindOneSpan(s, h, c, r, b, e);
    SliceOfPiece(s, b, c);
  }

  /**
   * `s` is a quiet piece `h`, a cluster `c`, a quiet piece `g`, a cluster `u` and a
   * quiet piece `a`; every boundary between a quiet piece and a cluster is a non-word
   * character: the two clusters are found, in order.
   */
  lemma FindTwoSpans(s: string, h: string, c: string, g: string, u: string, a: string, b: nat, m: nat, d: nat, e: nat)
    requires b == |h| && m == b + |c| && d == m + |g| && e == d + |u| && e + |a| == |s|
    requires Placed(s, 0, h) && Quiet(h) && |h| > 0 && !IsWordOrDash(h[|h| - 1])
    requires Placed(s, b, c) && Cluster(c)
    requires Placed(s, m, g) && Quiet(g) && |g| > 0 && !IsWordOrDash(g[0]) && !IsWordOrDash(g[|g| - 1])
    requires Placed(s, d, u) && Cluster(u)
    requires Placed(s, e, a) && Quiet(a) && (a == [] || !IsWordOrDash(a[0]))
    ensures FindAll(s, 0) == [s[b..m], s[d..e]]
  {
    assert s[m] == g[0];
    if a != [] {
      assert s[e] == a[0];
    }
    PieceStep(s, 0, b, m, h, c);
    PieceStep(s, m, d, e, g, u);
    TailStep(s, e, a);
  }

  /** The two clusters of `FindTwoSpans`, as the pieces themselves. */
  lemma FindTwo(s: string, h: string, c: string, g: string, u: string, a: string, b: nat, m: nat, d: nat, e: nat)
    requires b == |h| && m == b + |c| && d == m + |g| && e == d + |u| && e + |a| == |s|
    requires Placed(s, 0, h) && Quiet(h) && |h| > 0 && !IsWordOrDash(h[|h| - 1])
    requires Placed(s, b, c) && Cluster(c)
    requires Placed(s, m, g) && Quiet(g) && |g| > 0 && !IsWordOrDash(g[0]) && !IsWordOrDash(g[|g| - 1])
    requires Placed(s, d, u) && Cluster(u)
    requires Placed(s, e, a) && Quiet(a) && (a == [] || !IsWordOrDash(a[0]))
    ensures FindAll(s, 0) == [c, u]
  {
    FindTwoSpans(s, h, c, g, u, a, b, m, d, e);
    SliceOfPiece(s, b, c);
    SliceOfPiece(s, d, u);
  }

  /** A title naming one cluster, with no marker pair in its text, yields that cluster. */
  lemma OneClusterFound(severity: string, cluster: string, text: string)
    requires Quiet(severity) && Cluster(cluster) && Quiet(text)
    ensures FindAll(AlertTitle(severity, cluster, text), 0) == [cluster]
  {
    var s := AlertTitle(severity, cluster, text);
    HeadQuiet(severity);
    RestQuiet(text);
    var b := |Head(severity)|;
    var e := b + |cluster|;
    TitleLayout(s, severity, cluster, text, b, e);
    FindOne(s, Head(severity), cluster, Rest(text), b, e);
  }

  /**
   * The layout of a title whose text names a second cluster, with `b`, `m`, `d` and `e`
   * the positions where the cluster, the text, the second cluster and what follows it begin.
   */
  lemma TwoLayout(s: string, severity: string, cluster: string, before: string, second: string, after: string,
                  b: nat, m: nat, d: nat, e: nat)
    requires s == AlertTitle(severity, cluster, before + (second + after))
    requires b == |Head(severity)| && m == b + |cluster| && d == m + |Rest(before)| && e == d + |second|
    ensures e + |after| == |s|
    ensures Placed(s, 0, Head(severity)) && Placed(s, b, cluster)
    ensures Placed(s, m, Rest(before)) && Placed(s, d, second) && Placed(s, e, after)
  {
    TitleLayout(s, severity, cluster, before + (second + after), b, m);
    TextLayout(s, m, d, e, before, second, after);
  }

  /** A title whose text names a second cluster yields both, in order. */
  lemma TwoClustersFound(severity: string, cluster: string, before: string, second: string, after: string)
    requires Quiet(severity) && Cluster(cluster) && Cluster(second)
    requires Quiet(before) && |before| > 0 && !IsWordOrDash(before[|before| - 1])
    requires Quiet(after) && (after == [] || !IsWordOrDash(after[0]))
    ensures FindAll(AlertTitle(severity, cluster, before + (second + after)), 0) == [cluster, second]
  {
    HeadQuiet(severity);
    RestQuiet(before);
    assert Rest(before)[|before| + 1] == before[|before| - 1];
    var s := AlertTitle(severity, cluster, before + (second + after));
    var b := |Head(severity)|;
    var m := b + |cluster|;
    var d := m + |Rest(before)|;
    var e := d + |second|;
    TwoLayout(s, severity, cluster, before, second, after, b, m, d, e);
    FindTwo(s, Head(severity), cluster, Rest(before), second, after, b, m, d, e);
  }

  /** A title naming one cluster, with no marker pair elsewhere, parses to that cluster in lower case. */
  lemma OneClusterParses(severity: string, cluster: string, text: string)
    requires Quiet(severity) && Cluster(cluster) && Quiet(text)
    ensures ParseClusterFromString(AlertTitle(severity, cluster, text)) == Ok([ToLower(cluster)])
  {
    OneClusterFound(severity, cluster, text);
    ParseOfOne(AlertTitle(severity, cluster, text), cluster);
  }

  /** A title whose text names its cluster again, in another case, parses to the one cluster in lower case. */
  lemma TwoClustersParse(severity: string, cluster: string, before: string, second: string, after: string)
    requires Quiet(severity) && Cluster(cluster) && Cluster(second) && ToLower(cluster) == ToLower(second)
    requires Quiet(before) && |before| > 0 && !IsWordOrDash(before[|before| - 1])
    requires Quiet(after) && (after == [] || !IsWordOrDash(after[0]))
    ensures ParseClusterFromString(AlertTitle(severity, cluster, before + (second + after))) == Ok([ToLower(cluster)])
  {
    TwoClustersFound(severity, cluster, before, second, after);
    ParseOfSameTwo(AlertTitle(severity, cluster, before + (second + after)), cluster, second);
  }

  /** One cluster found: the result is that cluster in lower case. */
  lemma ParseOfOne(s: string, t: string)
    requires FindAll(s, 0) == [t] && Cluster(t)
    ensures ParseClusterFromString(s) == Ok([ToLower(t)])
  {
    NormalizeToken(t);
    assert NormalizeStringSlice([t]) == [ToLower(t)];
    assert Slice.Dedup([ToLower(t)]) == [ToLower(t)];
  }

  /** Two clusters found that differ only in case: the result is one of them, in lower case. */
  lemma ParseOfSameTwo(s: string, t: string, u: string)
    requires FindAll(s, 0) == [t, u] && Cluster(t) && Cluster(u) && ToLower(t) == ToLower(u)
    ensures ParseClusterFromString(s) == Ok([ToLower(t)])
  {
    NormalizeToken(t);
    NormalizeToken(u);
    ParseOfPair(s, t, u);
  }

  /** Two strings found that normalise alike: the result is their one normal form. */
  lemma ParseOfPair(s: string, t: string, u: string)
    requires FindAll(s, 0) == [t, u] && NormalizeString(t) == NormalizeString(u)
    ensures ParseClusterFromString(s) == Ok([NormalizeString(t)])
  {
    var n := NormalizeStringSlice([t, u]);
    assert n == [NormalizeString(t), NormalizeString(t)];
    DedupTwice(NormalizeString(t));
  }

  /** A value listed twice is kept once. */
  lemma DedupTwice(x: string)
    ensures Slice.Dedup([x, x]) == [x]
  {
    var d := [x, x];
    assert d[..|d| - 1] == [x];
    assert Slice.Dedup([x]) == [x];
  }

  // The alert titles of the test table, cut into pieces with no marker pair.

  const NodeText := "ManyPodsNotReadyOnNode - Less then " + "7" + "5% of pods ready on node"
  const NovaText := "OpenstackNovaDatapathDown - Datapath nova " + "metadata is down"
  const FederationBefore := "InfrastructurePro" + "metheusFederationFailed - Infrastructure Pro" + "metheus "

  const NodeAlert := AlertTitle("CRITICAL - 2", "LA-BR-1", NodeText)
  const NovaAlert := AlertTitle("RESOLVED", "LA-BR-1", NovaText)
  const FederationAlert := AlertTitle("CRITICAL", "S-LA-BR-1", FederationBefore + ("s-la-br-1" + " is down"))

  lemma SeverityQuiet()
    ensures Quiet("CRITICAL - 2")
  {
    QuietWithoutFollow("CRITICAL - ");
    QuietWithoutFollow("2");
    QuietConcat("CRITICAL - ", "2");
    assert "CRITICAL - " + "2" == "CRITICAL - 2";
  }

  lemma LaBrCluster()
    ensures Cluster("LA-BR-1") && ToLower("LA-BR-1") == "la-br-1"
  {
    assert ToLower("LA-BR-1") == "la-br-1";
  }

  lemma SLaBrClusters()
    ensures Cluster("S-LA-BR-1") && Cluster("s-la-br-1") && ToLower("S-LA-BR-1") == "s-la-br-1"
  {
    assert ToLower("S-LA-BR-1") == "s-la-br-1";
  }

  lemma NodeChunks()
    ensures NoFollow("ManyPodsNotReadyOnNode - Less then ") && NoFollow("5% of pods ready on node")
  {
  }

  lemma NodeTextQuiet()
    ensures Quiet(NodeText)
  {
    var a, b := "ManyPodsNotReadyOnNode - Less then ", "5% of pods ready on node";
    NodeChunks();
    QuietWithoutFollow(a);
    QuietWithoutFollow("7");
    QuietWithoutFollow(b);
    QuietConcat(a, "7");
    QuietConcat(a + "7", b);
  }

  lemma NovaChunks()
    ensures NoFollow("OpenstackNovaDatapathDown - Datapath nova ") && NoFollow("metadata is down")
  {
  }

  lemma NovaTextQuiet()
    ensures Quiet(NovaText)
  {
    var a, b := "OpenstackNovaDatapathDown - Datapath nova ", "metadata is down";
    NovaChunks();
    QuietWithoutFollow(a);
    QuietWithoutFollow(b);
    QuietConcat(a, b);
  }

  lemma FederationChunks()
    ensures NoFollow("InfrastructurePro") && NoFollow("metheusFederationFailed - Infrastructure Pro")
    ensures NoFollow("metheus ")
  {
  }

  lemma FederationBeforeQuiet()
    ensures Quiet(FederationBefore)
  {
    var a, b, c := "InfrastructurePro", "metheusFederationFailed - Infrastructure Pro", "metheus ";
    FederationChunks();
    QuietWithoutFollow(a);
    QuietWithoutFollow(b);
    QuietWithoutFollow(c);
    QuietConcat(a, b);
    QuietConcat(a + b, c);
  }

  /** `[CRITICAL - 2] [LA-BR-1] ManyPodsNotReadyOnNode - ...` yields `la-br-1`. */
  lemma NodeAlertParses()
    ensures ParseClusterFromString(NodeAlert) == Ok(["la-br-1"])
  {
    SeverityQuiet();
    NodeTextQuiet();
    LaBrCluster();
    OneClusterParses("CRITICAL - 2", "LA-BR-1", NodeText);
  }

  /** `[RESOLVED] [LA-BR-1] OpenstackNovaDatapathDown - ...` yields `la-br-1`. */
  lemma NovaAlertParses()
    ensures ParseClusterFromString(NovaAlert) == Ok(["la-br-1"])
  {
    QuietWithoutFollow("RESOLVED");
    NovaTextQuiet();
    LaBrCluster();
    OneClusterParses("RESOLVED", "LA-BR-1", NovaText);
  }

  /**
   * `[CRITICAL] [S-LA-BR-1] ... Prometheus s-la-br-1 is down` names its cluster twice, in two
   * cases: both are found, and they collapse into one once lower-cased.
   */
  lemma FederationAlertParses()
    ensures ParseClusterFromString(FederationAlert) == Ok(["s-la-br-1"])
  {
    QuietWithoutFollow("CRITICAL");
    FederationBeforeQuiet();
    QuietWithoutFollow(" is down");
    SLaBrClusters();
    TwoClustersParse("CRITICAL", "S-LA-BR-1", FederationBefore, "s-la-br-1", " is down");
  }
}
