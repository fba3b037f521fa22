/**
 * The cluster extractor of `pkg/util/parse.go`: every non-overlapping leftmost match
 * of the RE2 pattern `[\w-]*\w{2}-\w{2}-\d|admin|staging`, normalised and
 * de-duplicated.  The pattern is the correlator's region group without brackets,
 * so it also matches inside words and host names.
 */
module ClusterParse {
  import opened Wrappers
  import opened Strings
  import Correlator
  import Slice

  /** The whole of `s[i..e]` matches the pattern. */
  predicate Matches(s: string, i: int, e: int) {
    0 <= i <= e <= |s| && Correlator.IsRegionToken(s[i..e])
  }

  /** The first alternative `[\w-]*\w{2}-\w{2}-\d` matches `s[i..e]`. */
  predicate TailToken(s: string, i: int, e: int) {
    0 <= i && i + 7 <= e <= |s|
    && (forall k :: i <= k < e ==> Correlator.IsWordOrDash(s[k]))
    && Correlator.RegionTailAt(s, e)
  }

  /**
   * The match RE2 reports for a match starting at `i`: the first alternative if it
   * can match at all, with the greedy `[\w-]*` taking the longest such match;
   * otherwise `admin`, otherwise `staging`.
   */
  ghost predicate LeftmostFirst(s: string, i: int, e: int) {
    (TailToken(s, i, e) && forall e' :: TailToken(s, i, e') ==> e' <= e)
    || ((forall e' :: !TailToken(s, i, e')) && OccursAt(s, "admin", i) && e == i + 5)
    || ((forall e' :: !TailToken(s, i, e')) && !OccursAt(s, "admin", i)
        && OccursAt(s, "staging", i) && e == i + 7)
  }

  /** The first alternative is the pattern's first branch. */
  lemma TailTokenMatches(s: string, i: int, e: int)
    requires TailToken(s, i, e)
    ensures Matches(s, i, e)
  {
    var t := s[i..e];
    assert forall k :: 0 <= k < |t| ==> t[k] == s[i + k];
  }

  /** A match of the pattern is either a first-branch match or one of the two literals. */
  lemma MatchesCases(s: string, i: int, e: int)
    requires Matches(s, i, e)
    ensures TailToken(s, i, e) || (OccursAt(s, "admin", i) && e == i + 5)
      || (OccursAt(s, "staging", i) && e == i + 7)
  {
    var t := s[i..e];
    assert forall k :: i <= k < e ==> s[k] == t[k - i];
  }

  /** The largest `e' <= e` at which a first-branch match from `i` ends. */
  function LastTail(s: string, i: nat, e: nat): (r: Option<nat>)
    requires i <= e <= |s|
    requires forall k :: i <= k < e ==> Correlator.IsWordOrDash(s[k])
    ensures r.Some? ==> r.value <= e && TailToken(s, i, r.value)
    ensures forall e' :: TailToken(s, i, e') && e' <= e ==> r.Some? && e' <= r.value
    decreases e
  {
    if e < i + 7 then None
    else if Correlator.RegionTailAt(s, e) then Some(e)
    else LastTail(s, i, e - 1)
  }

  /** The end of the match starting at `i`, chosen as RE2 does, or `None` when none starts there. */
  function MatchAt(s: string, i: nat): (r: Option<nat>)
    requires i <= |s|
    ensures r.Some? ==> LeftmostFirst(s, i, r.value) && Matches(s, i, r.value) && i < r.value
    ensures r.None? ==> forall e :: !Matches(s, i, e)
  {
    var run := Correlator.RunEnd(s, i);
    var t := LastTail(s, i, run);
    TailWithinRun(s, i, run);
    if t.Some? then
      TailTokenMatches(s, i, t.value);
      t
    else
      NoMatchCases(s, i);
      if OccursAt(s, "admin", i) then Some(i + 5)
      else if OccursAt(s, "staging", i) then Some(i + 7)
      else None
  }

  /** A first-branch match cannot run past the end of the `[\w-]` run it starts. */
  lemma TailWithinRun(s: string, i: nat, run: nat)
    requires i <= |s| && run == Correlator.RunEnd(s, i)
    ensures forall e :: TailToken(s, i, e) ==> e <= run
  {
  }

  lemma NoMatchCases(s: string, i: nat)
    ensures forall e :: Matches(s, i, e) ==>
      (TailToken(s, i, e) || (OccursAt(s, "admin", i) && e == i + 5) || (OccursAt(s, "staging", i) && e == i + 7))
  {
    forall e | Matches(s, i, e)
      ensures TailToken(s, i, e) || (OccursAt(s, "admin", i) && e == i + 5)
        || (OccursAt(s, "staging", i) && e == i + 7)
    {
      MatchesCases(s, i, e);
    }
  }

  /**
   * `FindAllString(s, -1)` from position `i`: the leftmost match, then the search
   * resumes where it ended; matches never overlap and are never empty.
   */
  function FindAll(s: string, i: nat): (r: seq<string>)
    requires i <= |s|
    decreases |s| - i
  {
    if i == |s| then []
    else
      match MatchAt(s, i)
      case Some(e) => [s[i..e]] + FindAll(s, e)
      case None => FindAll(s, i + 1)
  }

  /** No match starts at `k`. */
  ghost predicate NoMatchAt(s: string, k: int) {
    forall e :: !Matches(s, k, e)
  }

  /** No match starts anywhere from `i` on. */
  ghost predicate NoMatchFrom(s: string, i: int) {
    forall k, e :: i <= k ==> !Matches(s, k, e)
  }

  /**
   * `FindAll` finds nothing exactly when no match starts at or after `i`; otherwise
   * it reports the leftmost match as RE2 chooses it and continues after its end.
   */
  lemma {:induction false} FindAllLeftmost(s: string, i: nat)
    requires i <= |s|
    ensures FindAll(s, i) == [] <==> NoMatchFrom(s, i)
    ensures FindAll(s, i) != [] ==>
      exists k, e :: i <= k < e <= |s| && LeftmostFirst(s, k, e)
        && (forall k' :: i <= k' < k ==> NoMatchAt(s, k'))
        && FindAll(s, i) == [s[k..e]] + FindAll(s, e)
    decreases |s| - i
  {
    if i == |s| {
      forall k, e | i <= k ensures !Matches(s, k, e) { }
    } else {
      match MatchAt(s, i)
      case Some(e) => {
        assert !NoMatchFrom(s, i) by { assert Matches(s, i, e); }
      }
      case None => {
        FindAllLeftmost(s, i + 1);
        forall k, e | i <= k ensures !Matches(s, k, e) == (k == i || !Matches(s, k, e)) { }
      }
    }
  }

  /** Every string `FindAll` reports matches the pattern in full. */
  lemma {:induction false} FindAllTokens(s: string, i: nat)
    requires i <= |s|
    ensures forall x :: x in FindAll(s, i) ==> Correlator.IsRegionToken(x)
    decreases |s| - i
  {
    if i < |s| {
      match MatchAt(s, i)
      case Some(e) => FindAllTokens(s, e);
      case None => FindAllTokens(s, i + 1);
    }
  }

  /** `NormalizeStringSlice`: `NormalizeString` on every element, in order. */
  function NormalizeStringSlice(ss: seq<string>): (r: seq<string>)
    ensures |r| == |ss|
    ensures forall i :: 0 <= i < |ss| ==> r[i] == Correlator.NormalizeString(ss[i])
  {
    if ss == [] then [] else [Correlator.NormalizeString(ss[0])] + NormalizeStringSlice(ss[1..])
  }

  /** `ParseClusterFromString`: the normalised, de-duplicated matches, or an error when there are none. */
  function ParseClusterFromString(theString: string): (r: Result<seq<string>>)
  {
    var clusters := Slice.Dedup(NormalizeStringSlice(FindAll(theString, 0)));
    if |clusters| == 0 then Err("no cluster found in input") else Ok(clusters)
  }

  /** Parsing fails exactly when the pattern matches nowhere in the input. */
  lemma ParseClusterErrIffNoMatch(s: string)
    ensures ParseClusterFromString(s).Err? <==> forall k, e :: !Matches(s, k, e)
  {
    var found := FindAll(s, 0);
    FindAllLeftmost(s, 0);
    Slice.DedupDistinctSameElements(NormalizeStringSlice(found));
    if found != [] {
      assert NormalizeStringSlice(found)[0] in Slice.Dedup(NormalizeStringSlice(found));
    }
  }

  /**
   * A successful parse is non-empty and duplicate-free, holds exactly the normalised
   * matches in the order they first occur, and each of its clusters is a lower-case
   * string that itself matches the pattern.
   */
  lemma ParseClusterOk(s: string)
    requires ParseClusterFromString(s).Ok?
    ensures var r := ParseClusterFromString(s).value;
      |r| > 0 && Slice.Distinct(r)
      && r == Slice.Dedup(NormalizeStringSlice(FindAll(s, 0)))
      && forall x :: x in r <==> x in NormalizeStringSlice(FindAll(s, 0))
  {
    Slice.DedupDistinctSameElements(NormalizeStringSlice(FindAll(s, 0)));
  }

  /** Each returned cluster is lower-case and matches the pattern. */
  lemma ParseClusterTokens(s: string)
    requires ParseClusterFromString(s).Ok?
    ensures forall x :: x in ParseClusterFromString(s).value ==>
      IsLower(x) && Correlator.IsRegionToken(x)
  {
    var found := FindAll(s, 0);
    FindAllTokens(s, 0);
    NormalizedTokens(found);
    Slice.DedupDistinctSameElements(NormalizeStringSlice(found));
  }

  /** Normalising a list of tokens gives lower-case tokens. */
  lemma NormalizedTokens(found: seq<string>)
    requires forall x :: x in found ==> Correlator.IsRegionToken(x)
    ensures forall x :: x in NormalizeStringSlice(found) ==> IsLower(x) && Correlator.IsRegionToken(x)
  {
    forall x | x in NormalizeStringSlice(found)
      ensures IsLower(x) && Correlator.IsRegionToken(x)
    {
      var i :| 0 <= i < |found| && NormalizeStringSlice(found)[i] == x;
      NormalizeToken(found[i]);
    }
  }

  /** Normalising a token only lower-cases it, and the result is still a token. */
  lemma NormalizeToken(t: string)
    requires Correlator.IsRegionToken(t)
    ensures Correlator.NormalizeString(t) == ToLower(t)
    ensures Correlator.IsRegionToken(ToLower(t))
  {
    LowerToken(t);
    TrimSpaceOfNoSpace(ToLower(t));
  }

  lemma LowerToken(t: string)
    requires Correlator.IsRegionToken(t)
    ensures NoSpace(ToLower(t)) && Correlator.IsRegionToken(ToLower(t))
  {
    if Correlator.AllWordOrDash(t) && Correlator.RegionTailAt(t, |t|) {
      LowerTailToken(t);
    } else if t == "admin" {
      LowerLiteral("admin");
    } else {
      LowerLiteral("staging");
    }
  }

  lemma LowerLiteral(t: string)
    requires t == "admin" || t == "staging"
    ensures ToLower(t) == t && NoSpace(t)
  {
    forall k | 0 <= k < |t| ensures 'a' <= t[k] <= 'z' {
    }
    ToLowerOfLower(t);
  }

  lemma LowerTailToken(t: string)
    requires Correlator.AllWordOrDash(t) && Correlator.RegionTailAt(t, |t|)
    ensures NoSpace(ToLower(t)) && Correlator.AllWordOrDash(ToLower(t))
    ensures Correlator.RegionTailAt(ToLower(t), |t|)
  {
    var l := ToLower(t);
    forall k | 0 <= k < |t| ensures Correlator.IsWordOrDash(l[k]) && !IsSpace(l[k]) {
      LowerKeepsClass(t[k]);
    }
    LowerKeepsClass(t[|t| - 7]);
    LowerKeepsClass(t[|t| - 6]);
    LowerKeepsClass(t[|t| - 4]);
    LowerKeepsClass(t[|t| - 3]);
    LowerKeepsClass(t[|t| - 1]);
  }

  /** Lower-casing keeps `\w`, `-` and digits in their classes; none of them is white space. */
  lemma LowerKeepsClass(c: char)
    ensures Correlator.IsWord(c) ==> Correlator.IsWord(LowerChar(c))
    ensures IsDigit(c) ==> LowerChar(c) == c
    ensures c == '-' ==> LowerChar(c) == '-'
    ensures Correlator.IsWordOrDash(c) ==> !IsSpace(c) && !IsSpace(LowerChar(c))
  {
  }
}
