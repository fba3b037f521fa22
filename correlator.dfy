/**
 * The summary correlator of `pkg/clients/util.go`: the fixed RE2 pattern
 *
 *     .*\s\[(?P<region>[\w-]*\w{2}-\w{2}-\d|admin|staging)\]\s(?P<alertname>.+?)\s\-.*
 *
 * written as a hand-made predicate over the characters of the summary (`MatchShape`,
 * `Chosen`), together with a scanner (`ParseSplit`) proved to find exactly the match
 * RE2's leftmost-first semantics select.
 */
module Correlator {
  import opened Wrappers
  import opened Strings

  /** RE2's `\s`: tab, newline, form feed, carriage return and space (not vertical tab). */
  predicate IsRegexSpace(c: char) {
    c == '\t' || c == '\n' || c == '\U{000C}' || c == '\r' || c == ' '
  }

  /** RE2's `\w`: ASCII letters, digits and underscore. */
  predicate IsWord(c: char) {
    ('a' <= c <= 'z') || ('A' <= c <= 'Z') || ('0' <= c <= '9') || c == '_'
  }

  predicate IsWordOrDash(c: char) { IsWord(c) || c == '-' }

  predicate AllWordOrDash(s: string) {
    forall i :: 0 <= i < |s| ==> IsWordOrDash(s[i])
  }

  /** The tail `\w{2}-\w{2}-\d` ends at position `e` of `s`. */
  predicate RegionTailAt(s: string, e: int) {
    7 <= e <= |s|
    && IsWord(s[e - 7]) && IsWord(s[e - 6]) && s[e - 5] == '-'
    && IsWord(s[e - 4]) && IsWord(s[e - 3]) && s[e - 2] == '-' && IsDigit(s[e - 1])
  }

  /**
   * The whole string `r` matches `[\w-]*\w{2}-\w{2}-\d|admin|staging`;
   * the two literals are case-sensitive.
   */
  predicate IsRegionToken(r: string) {
    (AllWordOrDash(r) && RegionTailAt(r, |r|)) || r == "admin" || r == "staging"
  }

  /** No newline in `s[i..j]`: what `.` (and hence `.*` and `.+?`) can span. */
  predicate NewlineFree(s: string, i: int, j: int) {
    0 <= i <= j <= |s| && forall k :: i <= k < j ==> s[k] != '\n'
  }

  /** `\s\-` starts at position `a`. */
  predicate Delim(s: string, a: int) {
    0 <= a && a + 1 < |s| && IsRegexSpace(s[a]) && s[a + 1] == '-'
  }

  /** `(?P<alertname>.+?)` can span `s[lo..a]` and `\s\-` follows it. */
  predicate AlertAt(s: string, lo: int, a: int) {
    0 <= lo < a && Delim(s, a) && NewlineFree(s, lo, a)
  }

  /**
   * One way the pattern's middle part `\s\[region\]\s alertname \s\-` can match:
   * white space at `w`, the region `s[w+2..e]`, the alertname `s[e+2..a]`.
   */
  predicate MatchShape(s: string, w: int, e: int, a: int) {
    0 <= w && w + 2 <= e && e + 1 < |s|
    && IsRegexSpace(s[w]) && s[w + 1] == '['
    && IsRegionToken(s[w + 2..e]) && s[e] == ']' && IsRegexSpace(s[e + 1])
    && AlertAt(s, e + 2, a)
  }

  /** Some match of the pattern has its `\s\[` at `w`. */
  ghost predicate Qualifies(s: string, w: int) {
    exists e, a :: MatchShape(s, w, e, a)
  }

  /**
   * The match RE2 returns: the leftmost match starts at the beginning of the line
   * holding the first qualifying position (`.` stops at newline), the greedy `.*`
   * then takes the last qualifying position on that line, and the lazy `.+?` the
   * shortest alertname.
   */
  ghost predicate Chosen(s: string, w: int, e: int, a: int) {
    MatchShape(s, w, e, a)
    && (forall a' :: e + 2 < a' < a ==> !Delim(s, a'))
    && (forall v :: 0 <= v < w && Qualifies(s, v) ==> NewlineFree(s, v, w))
    && (forall v :: w < v <= |s| && NewlineFree(s, w, v) ==> !Qualifies(s, v))
  }

  /** The end of the run of `[\w-]` characters starting at `i`. */
  function RunEnd(s: string, i: nat): (r: nat)
    requires i <= |s|
    ensures i <= r <= |s|
    ensures forall k :: i <= k < r ==> IsWordOrDash(s[k])
    ensures r == |s| || !IsWordOrDash(s[r])
    decreases |s| - i
  {
    if i == |s| || !IsWordOrDash(s[i]) then i else RunEnd(s, i + 1)
  }

  /** A region followed by `]` ends where the `[\w-]` run ends. */
  lemma RegionEndIsRunEnd(s: string, w: nat, e: nat)
    requires w + 2 <= e < |s| && IsRegionToken(s[w + 2..e]) && s[e] == ']'
    ensures e == RunEnd(s, w + 2)
  {
    var t := s[w + 2..e];
    assert AllWordOrDash(t);
    assert forall k :: w + 2 <= k < e ==> IsWordOrDash(s[k]) by {
      forall k | w + 2 <= k < e ensures IsWordOrDash(s[k]) {
        assert t[k - (w + 2)] == s[k];
      }
    }
  }

  /** Scan for the lazy alertname end: the first delimiter, unless a newline comes first. */
  function AlertEnd(s: string, lo: nat, j: nat): (r: Option<nat>)
    requires lo < j <= |s|
    requires NewlineFree(s, lo, j)
    requires forall a :: lo < a < j ==> !Delim(s, a)
    ensures r.Some? ==> AlertAt(s, lo, r.value)
    ensures r.Some? ==> forall a :: lo < a < r.value ==> !Delim(s, a)
    ensures r.None? ==> forall a :: !AlertAt(s, lo, a)
    decreases |s| - j
  {
    if Delim(s, j) then Some(j)
    else if j == |s| || s[j] == '\n' then None
    else AlertEnd(s, lo, j + 1)
  }

  /** The guard `ShapeAt` checks before scanning for the alertname, for region end `e`. */
  predicate RegionFits(s: string, w: nat, e: nat)
    requires w + 2 <= e
  {
    e + 2 < |s| && s[e] == ']' && IsRegionToken(s[w + 2..e]) && IsRegexSpace(s[e + 1]) && s[e + 2] != '\n'
  }

  /** Whether the pattern can match with its `\s\[` at `w`, and if so the region end and shortest alertname end. */
  function ShapeAt(s: string, w: nat): (r: Option<(nat, nat)>)
    ensures r.Some? ==> MatchShape(s, w, r.value.0, r.value.1)
    ensures r.Some? ==> forall a :: r.value.0 + 2 < a < r.value.1 ==> !Delim(s, a)
    ensures r.None? ==> !Qualifies(s, w)
  {
    if w + 1 < |s| && IsRegexSpace(s[w]) && s[w + 1] == '[' then
      var e := RunEnd(s, w + 2);
      ShapeDetermined(s, w);
      if RegionFits(s, w, e) then
        var r := AlertEnd(s, e + 2, e + 3);
        if r.Some? then Some((e, r.value)) else None
      else
        None
    else
      None
  }

  /** Every match with its `\s\[` at `w` passes the guard of `ShapeAt` and has an alertname end the scan finds. */
  lemma ShapeDetermined(s: string, w: nat)
    requires w + 1 < |s|
    ensures forall e, a :: MatchShape(s, w, e, a) ==>
      e == RunEnd(s, w + 2) && RegionFits(s, w, e) && AlertEnd(s, e + 2, e + 3).Some?
  {
    forall e, a | MatchShape(s, w, e, a)
      ensures e == RunEnd(s, w + 2) && RegionFits(s, w, e) && AlertEnd(s, e + 2, e + 3).Some?
    {
      RegionEndIsRunEnd(s, w, e);
      assert AlertAt(s, e + 2, a);
    }
  }

  /** The pattern can match with its `\s\[` at `w`; the scanner's test. */
  predicate Hit(s: string, w: nat) {
    ShapeAt(s, w).Some?
  }

  /** The scanner's test at every position from `i` on. */
  function Hits(s: string, i: nat): (h: seq<bool>)
    requires i <= |s|
    ensures |h| == |s| - i
    decreases |s| - i
  {
    if i == |s| then [] else [Hit(s, i)] + Hits(s, i + 1)
  }

  /** Entry `k - i` of `Hits(s, i)` is the scanner's test at `k`. */
  lemma {:induction false} HitsSpec(s: string, i: nat)
    requires i <= |s|
    ensures forall k :: i <= k < |s| ==> Hits(s, i)[k - i] == Hit(s, k)
    decreases |s| - i
  {
    if i < |s| {
      HitsSpec(s, i + 1);
      ShiftIndex(Hits(s, i), Hit(s, i), Hits(s, i + 1));
    }
  }

  /** Past the first entry, `[b] + t` is `t` shifted by one. */
  lemma ShiftIndex(h: seq<bool>, b: bool, t: seq<bool>)
    requires h == [b] + t
    ensures h[0] == b
    ensures forall k :: 1 <= k < |h| ==> h[k] == t[k - 1]
  {
  }

  /** The first index at or after `v` where `h` holds. */
  function FirstTrue(h: seq<bool>, v: nat): (r: Option<nat>)
    requires forall u :: 0 <= u < v && u < |h| ==> !h[u]
    ensures r.Some? ==> r.value < |h| && h[r.value] && forall u :: 0 <= u < r.value ==> !h[u]
    ensures r.None? ==> forall u :: 0 <= u < |h| ==> !h[u]
    decreases |h| - v
  {
    if v >= |h| then None
    else if h[v] then Some(v)
    else FirstTrue(h, v + 1)
  }

  /**
   * The last index where `h` holds on the line of `best`, scanning from `v`;
   * `best` is the last such index before `v`.
   */
  function LastOnLine(s: string, h: seq<bool>, v: nat, best: nat): (r: nat)
    requires |h| == |s| && best < v <= |s|
    requires h[best]
    requires NewlineFree(s, best, v)
    requires forall u :: best < u < v ==> !h[u]
    ensures best <= r < |s| && h[r] && NewlineFree(s, best, r)
    ensures forall u :: r < u < |s| && NewlineFree(s, r, u) ==> !h[u]
    decreases |s| - v
  {
    if v == |s| then best
    else
      var next := if h[v] then v else best;
      if s[v] == '\n' then next
      else LastOnLine(s, h, v + 1, next)
  }

  /** Qualifying positions are exactly the hits of the scanner. */
  lemma QualifiesIsHit(s: string, w: nat)
    ensures Qualifies(s, w) <==> Hit(s, w)
  {
    if Hit(s, w) {
      var ea := ShapeAt(s, w).value;
      assert MatchShape(s, w, ea.0, ea.1);
    }
  }

  /** The split `(w, e, a)` of the selected match. */
  datatype Split = Split(w: nat, e: nat, a: nat)

  /**
   * Where the selected match has its `\s\[`: the first qualifying position if it is
   * a newline, otherwise the last qualifying position on the line it lies on.
   */
  function SelectedStart(s: string): (r: Option<nat>)
    ensures r.Some? ==> r.value < |s|
  {
    var h := Hits(s, 0);
    var first := FirstTrue(h, 0);
    if first.None? then None
    else
      var w0 := first.value;
      Some(if s[w0] == '\n' then w0 else LastOnLine(s, h, w0 + 1, w0))
  }

  lemma SelectedStartChosen(s: string)
    ensures SelectedStart(s).None? ==> forall w :: 0 <= w ==> !Qualifies(s, w)
    ensures SelectedStart(s).Some? ==>
      var w := SelectedStart(s).value;
      Hit(s, w) && Chosen(s, w, ShapeAt(s, w).value.0, ShapeAt(s, w).value.1)
  {
    var h := Hits(s, 0);
    HitsQualify(s);
    var first := FirstTrue(h, 0);
    if first.Some? {
      var w := SelectedStart(s).value;
      QualifiesIsHit(s, w);
      ChosenOf(s, h, first.value, w);
    }
  }

  /** The positions of the match RE2 selects, or `None` when the pattern matches nowhere. */
  function ParseSplit(s: string): (r: Option<Split>)
    ensures r.Some? ==> r.value.w + 2 <= r.value.e && r.value.e + 2 < r.value.a < |s|
  {
    SelectedStartChosen(s);
    match SelectedStart(s)
    case None => None
    case Some(w) =>
      var ea := ShapeAt(s, w).value;
      Some(Split(w, ea.0, ea.1))
  }

  /** `ParseSplit` finds the selected match, and finds none only when the pattern matches nowhere. */
  lemma ParseSplitSpec(s: string)
    ensures ParseSplit(s).Some? ==> Chosen(s, ParseSplit(s).value.w, ParseSplit(s).value.e, ParseSplit(s).value.a)
    ensures ParseSplit(s).None? ==> forall w :: 0 <= w ==> !Qualifies(s, w)
  {
    SelectedStartChosen(s);
  }

  /** The scan's hits are exactly the qualifying positions. */
  lemma HitsQualify(s: string)
    ensures forall w :: 0 <= w < |s| ==> (Qualifies(s, w) <==> Hits(s, 0)[w])
    ensures forall w :: |s| <= w ==> !Qualifies(s, w)
  {
    forall w: nat ensures Qualifies(s, w) <==> Hit(s, w) {
      QualifiesIsHit(s, w);
    }
    HitsSpec(s, 0);
  }

  lemma ChosenOf(s: string, h: seq<bool>, w0: nat, w: nat)
    requires |h| == |s| && forall i :: 0 <= i < |s| ==> (Qualifies(s, i) <==> h[i])
    requires forall i :: |s| <= i ==> !Qualifies(s, i)
    requires w0 < |s| && h[w0] && forall u :: 0 <= u < w0 ==> !h[u]
    requires w == if s[w0] == '\n' then w0 else LastOnLine(s, h, w0 + 1, w0)
    requires Hit(s, w)
    ensures Chosen(s, w, ShapeAt(s, w).value.0, ShapeAt(s, w).value.1)
  {
    var ea := ShapeAt(s, w).value;
    assert MatchShape(s, w, ea.0, ea.1);
    if s[w0] == '\n' {
      forall v | w < v <= |s| ensures !NewlineFree(s, w, v) {
        assert s[w] == '\n';
      }
    }
  }

  /** Two selected matches are the same match: RE2's choice is unique. */
  lemma ChosenUnique(s: string, w: int, e: int, a: int, w': int, e': int, a': int)
    requires Chosen(s, w, e, a) && Chosen(s, w', e', a')
    ensures w == w' && e == e' && a == a'
  {
    assert Qualifies(s, w) && Qualifies(s, w');
    RegionEndIsRunEnd(s, w, e);
    RegionEndIsRunEnd(s, w', e');
    assert Delim(s, a) && Delim(s, a');
  }

  /** `\s\[` starts at `v`: the only place a match can have its region bracket. */
  predicate Opens(s: string, v: int) {
    0 <= v && v + 1 < |s| && IsRegexSpace(s[v]) && s[v + 1] == '['
  }

  /**
   * A match whose alertname is the shortest, with no `\s\[` before the start `l` of its
   * line and none after it up to and including the line's end `m` (the `\s` may be
   * the newline itself), is the one selected.
   */
  lemma SelectedWhenIsolated(s: string, l: nat, w: nat, e: nat, a: nat, m: nat)
    requires MatchShape(s, w, e, a)
    requires forall a' :: e + 2 < a' < a ==> !Delim(s, a')
    requires l <= w && NewlineFree(s, l, w) && (l == 0 || s[l - 1] == '\n')
    requires forall v :: 0 <= v < l ==> !Opens(s, v)
    requires w < m <= |s| && (m == |s| || s[m] == '\n')
    requires forall v :: w < v <= m ==> !Opens(s, v)
    ensures ParseSplit(s) == Some(Split(w, e, a))
  {
    assert Qualifies(s, w);
    forall v | w < v <= |s| && NewlineFree(s, w, v) ensures !Qualifies(s, v) {
      assert v <= m;
      assert !Opens(s, v);
    }
    forall v | 0 <= v < w && Qualifies(s, v) ensures NewlineFree(s, v, w) {
      assert Opens(s, v);
    }
    assert Chosen(s, w, e, a);
    ParseSplitSpec(s);
    var sp := ParseSplit(s).value;
    ChosenUnique(s, w, e, a, sp.w, sp.e, sp.a);
  }

  /** Lower-case, with no white space at either end: what `normalizeString` produces. */
  predicate Normalised(s: string) {
    IsLower(s) && (s == [] || (!IsSpace(s[0]) && !IsSpace(s[|s| - 1])))
  }

  /** `normalizeString`: lower-case, then trim white space. */
  function NormalizeString(s: string): (r: string)
    ensures Normalised(r)
  {
    TrimSpaceOfLower(ToLower(s));
    TrimSpace(ToLower(s))
  }

  /**
   * What `normalizeString` keeps is the lower-cased piece of `s` that starts after
   * its leading white space, and everything it drops on either side is white space.
   */
  lemma {:induction false} NormalizePiece(s: string)
    ensures var r := NormalizeString(s);
      var t := ToLower(s);
      var k := |t| - |TrimLeftSpace(t)|;
      Piece(t, r, k) && SpaceAround(s, k, |r|)
  {
    var t := ToLower(s);
    var r := NormalizeString(s);
    var k := |t| - |TrimLeftSpace(t)|;
    assert Piece(t, r, k) && SpaceAround(t, k, |r|) by {
      assert r == TrimSpace(t);
      TrimSpacePiece(t);
    }
    assert SpaceAround(s, k, |r|) by {
      LowerSpaceAround(s, k, |r|);
    }
  }

  /** Normalised strings are exactly the fixed points of `NormalizeString`, so normalising twice is normalising once. */
  lemma NormalisedFixedPoint(s: string)
    ensures Normalised(s) <==> NormalizeString(s) == s
  {
    if Normalised(s) {
      ToLowerOfLower(s);
      TrimSpaceOfTrimmed(s);
    }
  }

  lemma NormalizeIdempotent(s: string)
    ensures NormalizeString(NormalizeString(s)) == NormalizeString(s)
  {
    NormalisedFixedPoint(NormalizeString(s));
  }

  /** Lower-casing twice is lower-casing once, so the region's extra `strings.ToLower` is harmless. */
  lemma ToLowerIdempotent(s: string)
    ensures ToLower(ToLower(s)) == ToLower(s)
  {
    ToLowerOfLower(ToLower(s));
  }

  /**
   * `parseRegionAndAlertnameFromText`: the region (lower-cased, as the loop over the
   * sub-expression names does) and the alertname of the selected match, both normalised.
   */
  function ParseRegionAndAlertname(summary: string): (r: Result<(string, string)>)
  {
    match ParseSplit(summary)
    case None =>
      Err("pagerduty incident summary doesn not contain alertname and/or region: '" + summary + "'")
    case Some(Split(w, e, a)) =>
      Ok((NormalizeString(ToLower(summary[w + 2..e])), NormalizeString(summary[e + 2..a])))
  }

  /** How the result of `ParseRegionAndAlertname` is made from the selected split. */
  lemma ParseCaptures(s: string)
    ensures ParseRegionAndAlertname(s).Ok? <==> ParseSplit(s).Some?
    ensures ParseSplit(s).Some? ==>
      var sp := ParseSplit(s).value;
      ParseRegionAndAlertname(s).value == (NormalizeString(ToLower(s[sp.w + 2..sp.e])), NormalizeString(s[sp.e + 2..sp.a]))
  {
  }

  /**
   * Parsing succeeds exactly when the pattern matches somewhere, and then yields the
   * normalised captures of the match RE2 selects.
   */
  lemma ParseMatchesRegex(s: string)
    ensures ParseRegionAndAlertname(s).Ok? <==> exists w :: 0 <= w && Qualifies(s, w)
    ensures ParseRegionAndAlertname(s).Ok? ==>
      exists w, e, a :: Chosen(s, w, e, a)
        && ParseRegionAndAlertname(s).value == (NormalizeString(s[w + 2..e]), NormalizeString(s[e + 2..a]))
  {
    ParseCaptures(s);
    ParseSplitSpec(s);
    var r := ParseSplit(s);
    if r.Some? {
      var sp := r.value;
      assert Qualifies(s, sp.w) by { assert MatchShape(s, sp.w, sp.e, sp.a); }
      ToLowerIdempotent(s[sp.w + 2..sp.e]);
      assert Chosen(s, sp.w, sp.e, sp.a);
    }
  }

  /** Both components of a successful parse are lower-case and carry no surrounding white space. */
  lemma ParseNormalised(s: string)
    requires ParseRegionAndAlertname(s).Ok?
    ensures Normalised(ParseRegionAndAlertname(s).value.0)
    ensures Normalised(ParseRegionAndAlertname(s).value.1)
  {
    ParseCaptures(s);
  }
}
