/**
 * The string-slice helpers of `pkg/util/slice.go`: membership, prefix tests,
 * order-insensitive comparison and de-duplication.
 */
module Slice {
  import Strings

  predicate Distinct<T(==)>(s: seq<T>) {
    forall i, j :: 0 <= i < j < |s| ==> s[i] != s[j]
  }

  /** The elements of `b` whose flag in `mask` is set, in order. */
  function Select<T>(b: seq<T>, mask: seq<bool>): (r: seq<T>)
    requires |mask| == |b|
    ensures |r| <= |b|
    decreases |b|
  {
    if b == [] then []
    else Select(b[..|b| - 1], mask[..|b| - 1]) + (if mask[|b| - 1] then [b[|b| - 1]] else [])
  }

  /** `a` can be obtained from `b` by deleting elements, keeping the order of the rest. */
  ghost predicate IsSubsequence<T>(a: seq<T>, b: seq<T>) {
    exists mask :: |mask| == |b| && Select(b, mask) == a
  }

  lemma SubsequenceNil<T>(b: seq<T>)
    ensures IsSubsequence([], b)
  {
    var mask := seq(|b|, _ => false);
    SelectNone(b, mask);
  }

  lemma {:induction false} SelectNone<T>(b: seq<T>, mask: seq<bool>)
    requires |mask| == |b| && forall i :: 0 <= i < |mask| ==> !mask[i]
    ensures Select(b, mask) == []
    decreases |b|
  {
    if b != [] {
      SelectNone(b[..|b| - 1], mask[..|b| - 1]);
    }
  }

  /** Extending `b` by one element keeps `a` a subsequence, with or without that element appended to `a`. */
  lemma SubsequenceSnoc<T>(a: seq<T>, b: seq<T>, x: T, keep: bool)
    requires IsSubsequence(a, b)
    ensures IsSubsequence(a + (if keep then [x] else []), b + [x])
  {
    var mask :| |mask| == |b| && Select(b, mask) == a;
    SelectSnoc(b, mask, x, keep);
  }

  lemma SelectSnoc<T>(b: seq<T>, mask: seq<bool>, x: T, keep: bool)
    requires |mask| == |b|
    ensures Select(b + [x], mask + [keep]) == Select(b, mask) + (if keep then [x] else [])
  {
    assert (b + [x])[..|b|] == b;
    assert (mask + [keep])[..|b|] == mask;
  }

  lemma {:induction false} SelectElements<T>(b: seq<T>, mask: seq<bool>)
    requires |mask| == |b|
    ensures forall x :: x in Select(b, mask) ==> x in b
    decreases |b|
  {
    if b != [] {
      SelectElements(b[..|b| - 1], mask[..|b| - 1]);
      assert b == b[..|b| - 1] + [b[|b| - 1]];
    }
  }

  lemma SubsequenceElements<T>(a: seq<T>, b: seq<T>)
    requires IsSubsequence(a, b)
    ensures forall x :: x in a ==> x in b
  {
    var mask :| |mask| == |b| && Select(b, mask) == a;
    SelectElements(b, mask);
  }

  /** `Contains`: some element equals the search string. */
  function Contains(sslice: seq<string>, searchString: string): (r: bool)
    ensures r <==> exists i :: 0 <= i < |sslice| && sslice[i] == searchString
  {
    if sslice == [] then false
    else if sslice[0] == searchString then true
    else
      var r := Contains(sslice[1..], searchString);
      assert forall i :: 1 <= i < |sslice| ==> sslice[i] == sslice[1..][i - 1];
      r
  }

  /** `HasAnyPrefix`: some listed prefix is a prefix of the string. */
  function HasAnyPrefix(prefixes: seq<string>, theString: string): (r: bool)
    ensures r <==> exists i :: 0 <= i < |prefixes| && prefixes[i] <= theString
  {
    if prefixes == [] then false
    else if prefixes[0] <= theString then true
    else
      var r := HasAnyPrefix(prefixes[1..], theString);
      assert forall i :: 1 <= i < |prefixes| ==> prefixes[i] == prefixes[1..][i - 1];
      r
  }

  /** `TrimAnyPrefix`: strip each prefix once, in list order; what is left is a suffix of the input. */
  function TrimAnyPrefix(prefixes: seq<string>, theString: string): (r: string)
    ensures |r| <= |theString| && r == theString[|theString| - |r|..]
  {
    if prefixes == [] then theString
    else
      var t := Strings.TrimPrefix(theString, prefixes[0]);
      var r := TrimAnyPrefix(prefixes[1..], t);
      assert t == theString[|theString| - |t|..];
      r
  }

  /** Trimming with one more prefix trims the previous result once more. */
  lemma {:induction false} TrimAnyPrefixSnoc(prefixes: seq<string>, p: string, theString: string)
    ensures TrimAnyPrefix(prefixes + [p], theString) == Strings.TrimPrefix(TrimAnyPrefix(prefixes, theString), p)
    decreases |prefixes|
  {
    if prefixes == [] {
      assert ([p])[1..] == [];
    } else {
      assert (prefixes + [p])[1..] == prefixes[1..] + [p];
      TrimAnyPrefixSnoc(prefixes[1..], p, Strings.TrimPrefix(theString, prefixes[0]));
    }
  }

  /** A string none of the prefixes starts with comes back unchanged. */
  lemma {:induction false} TrimAnyPrefixNoMatch(prefixes: seq<string>, theString: string)
    requires forall i :: 0 <= i < |prefixes| ==> !(prefixes[i] <= theString)
    ensures TrimAnyPrefix(prefixes, theString) == theString
    decreases |prefixes|
  {
    if prefixes != [] {
      var rest := prefixes[1..];
      assert forall i :: 0 <= i < |rest| ==> rest[i] == prefixes[i + 1];
      assert Strings.TrimPrefix(theString, prefixes[0]) == theString;
      TrimAnyPrefixNoMatch(rest, theString);
      assert TrimAnyPrefix(prefixes, theString) == TrimAnyPrefix(rest, theString);
    }
  }

  /**
   * What `IsSlicesEqual` computes as written: with equal lengths, it holds exactly
   * when the first slice has no repeated element and each of its elements occurs in
   * the second.
   */
  predicate SlicesEqualAsWritten(s1: seq<string>, s2: seq<string>) {
    |s1| == |s2| && Distinct(s1) && forall x :: x in s1 ==> x in s2
  }

  lemma NotEarlierWhenDistinct(s: seq<string>, i: nat)
    requires i < |s|
    ensures Distinct(s) ==> s[i] !in s[..i]
  {
  }

  /**
   * `IsSlicesEqual` as written: every element of `s1` marks all still unvisited
   * equal slots of `s2`, because the inner loop has no `break`.
   */
  method IsSlicesEqual(s1: seq<string>, s2: seq<string>) returns (eq: bool)
    ensures eq <==> SlicesEqualAsWritten(s1, s2)
  {
    if |s1| != |s2| {
      return false;
    }
    var visited := new bool[|s2|](_ => false);
    for i := 0 to |s1|
      invariant Distinct(s1[..i])
      invariant forall x :: x in s1[..i] ==> x in s2
      invariant forall j :: 0 <= j < |s2| ==> (visited[j] <==> s2[j] in s1[..i])
    {
      var found := false;
      ghost var before := visited[..];
      for j := 0 to |s2|
        invariant found <==> exists k :: 0 <= k < j && !before[k] && s2[k] == s1[i]
        invariant forall k :: 0 <= k < |s2| ==> visited[k] == (before[k] || (k < j && s2[k] == s1[i]))
      {
        if visited[j] {
          continue;
        }
        if s1[i] == s2[j] {
          visited[j] := true;
          found := true;
        }
      }
      assert found <==> s1[i] in s2 && s1[i] !in s1[..i] by {
        if s1[i] in s2 {
          var k :| 0 <= k < |s2| && s2[k] == s1[i];
          assert before[k] <==> s1[i] in s1[..i];
        }
      }
      if !found {
        NotEarlierWhenDistinct(s1, i);
        return false;
      }
      assert s1[..i + 1] == s1[..i] + [s1[i]];
    }
    assert s1[..|s1|] == s1;
    return true;
  }

  /** A duplicate-free sequence counts each of its elements once. */
  lemma {:induction false} DistinctCounts<T>(s: seq<T>)
    requires Distinct(s)
    ensures forall x :: multiset(s)[x] == if x in s then 1 else 0
    decreases |s|
  {
    if s != [] {
      var p := s[..|s| - 1];
      DistinctCounts(p);
      assert s == p + [s[|s| - 1]];
    }
  }

  /** A sequence counting each element at most once is duplicate-free. */
  lemma CountsDistinct<T>(s: seq<T>)
    requires forall x :: multiset(s)[x] <= 1
    ensures Distinct(s)
  {
    forall i, j | 0 <= i < j < |s| ensures s[i] != s[j] {
      assert s[..j + 1] == s[..j] + [s[j]];
      assert s == s[..j + 1] + s[j + 1..];
      assert multiset(s)[s[j]] >= multiset(s[..j])[s[j]] + 1;
      assert s[i] in s[..j];
      assert multiset(s[..j])[s[i]] >= 1;
    }
  }

  /**
   * When the second slice has no repeated element, the as-written comparison is
   * exactly "the first slice is a permutation of the second".
   */
  lemma SlicesEqualIsPermutation(s1: seq<string>, s2: seq<string>)
    requires Distinct(s2)
    ensures SlicesEqualAsWritten(s1, s2) <==> multiset(s1) == multiset(s2)
  {
    if SlicesEqualAsWritten(s1, s2) {
      AsWrittenPermutation(s1, s2);
    }
    if multiset(s1) == multiset(s2) {
      PermutationAsWritten(s1, s2);
    }
  }

  lemma AsWrittenPermutation(s1: seq<string>, s2: seq<string>)
    requires Distinct(s2) && SlicesEqualAsWritten(s1, s2)
    ensures multiset(s1) == multiset(s2)
  {
    DistinctCounts(s2);
    DistinctCounts(s1);
    var set1 := set x | x in s1;
    var set2 := set x | x in s2;
    DistinctCard(s1);
    DistinctCard(s2);
    assert set2 == set1 + (set2 - set1);
    assert |set2 - set1| == 0;
    assert forall x :: x in s1 <==> x in s2 by {
      assert set1 == set2;
      assert forall x :: x in s1 <==> x in set1;
    }
  }

  lemma PermutationAsWritten(s1: seq<string>, s2: seq<string>)
    requires Distinct(s2) && multiset(s1) == multiset(s2)
    ensures SlicesEqualAsWritten(s1, s2)
  {
    DistinctCounts(s2);
    assert |s1| == |multiset(s1)| == |multiset(s2)| == |s2|;
    CountsDistinct(s1);
    assert forall x :: x in s1 ==> x in multiset(s1);
  }

  lemma {:induction false} DistinctCard<T>(s: seq<T>)
    requires Distinct(s)
    ensures |set x | x in s| == |s|
    decreases |s|
  {
    if s != [] {
      var p := s[..|s| - 1];
      DistinctCard(p);
      assert (set x | x in s) == (set x | x in p) + {s[|s| - 1]};
    }
  }

  /** The missing `break` shows: two equal slices holding a repeated element compare unequal. */
  lemma RepeatedElementCounterexample()
    ensures multiset(["a", "a"]) == multiset(["a", "a"])
    ensures !SlicesEqualAsWritten(["a", "a"], ["a", "a"])
  {
    var s := ["a", "a"];
    assert s[0] == s[1];
  }

  /** What `IsSlicesEqual` is documented to compute: equal content, in any order. */
  predicate SameContent(s1: seq<string>, s2: seq<string>) {
    multiset(s1) == multiset(s2)
  }

  /**
   * `IsSlicesEqual` with the `break` its documentation calls for: each element of `s1`
   * claims only the first unclaimed equal slot of `s2`.
   */
  method IsSlicesEqualCorrected(s1: seq<string>, s2: seq<string>) returns (eq: bool)
    ensures eq <==> SameContent(s1, s2)
  {
    if |s1| != |s2| {
      assert |multiset(s1)| == |s1|;
      return false;
    }
    var visited := new bool[|s2|](_ => false);
    SelectNone(s2, visited[..]);
    for i := 0 to |s1|
      invariant multiset(Select(s2, visited[..])) == multiset(s1[..i])
    {
      var j := FirstUnclaimed(s2, visited, s1[i]);
      if j == |s2| {
        UnclaimedMissing(s1, s2, visited[..], i);
        return false;
      }
      ClaimSlot(s2, visited, j);
      PrefixMultisetStep(s1, i);
    }
    AllClaimed(s1, s2, visited[..]);
    return true;
  }

  /** The inner loop with `break`: the first slot of `s2` holding `x` and not yet claimed, or `|s2|`. */
  method FirstUnclaimed(s2: seq<string>, visited: array<bool>, x: string) returns (j: nat)
    requires visited.Length == |s2|
    ensures j <= |s2|
    ensures j < |s2| ==> !visited[j] && s2[j] == x
    ensures forall k :: 0 <= k < j ==> visited[k] || s2[k] != x
  {
    j := 0;
    while j < |s2|
      invariant j <= |s2|
      invariant forall k :: 0 <= k < j ==> visited[k] || s2[k] != x
    {
      if !visited[j] && x == s2[j] {
        break;
      }
      j := j + 1;
    }
  }

  /** `visited[j] = true`: the claimed slots gain `s2[j]`. */
  method ClaimSlot(s2: seq<string>, visited: array<bool>, j: nat)
    requires visited.Length == |s2| && j < |s2| && !visited[j]
    modifies visited
    ensures visited[..] == old(visited[..])[j := true]
    ensures multiset(Select(s2, visited[..])) == multiset(Select(s2, old(visited[..]))) + multiset{s2[j]}
  {
    SelectClaim(s2, visited[..], j);
    visited[j] := true;
  }

  lemma PrefixMultisetStep<T>(s: seq<T>, i: nat)
    requires i < |s|
    ensures multiset(s[..i + 1]) == multiset(s[..i]) + multiset{s[i]}
  {
    assert s[..i + 1] == s[..i] + [s[i]];
  }

  /** When `s2` is as long as `s1` and the claimed slots hold the contents of `s1`, every slot is claimed. */
  lemma AllClaimed(s1: seq<string>, s2: seq<string>, mask: seq<bool>)
    requires |mask| == |s2| == |s1|
    requires multiset(Select(s2, mask)) == multiset(s1[..|s1|])
    ensures multiset(s1) == multiset(s2)
  {
    assert s1[..|s1|] == s1;
    var selected := Select(s2, mask);
    assert |selected| == |multiset(selected)| == |multiset(s1)| == |s2|;
    SelectFull(s2, mask);
  }

  /** An element of `s1` with no unclaimed equal slot left in `s2` makes the contents differ. */
  lemma UnclaimedMissing(s1: seq<string>, s2: seq<string>, mask: seq<bool>, i: nat)
    requires |mask| == |s2| && i < |s1|
    requires multiset(Select(s2, mask)) == multiset(s1[..i])
    requires forall k :: 0 <= k < |s2| ==> mask[k] || s2[k] != s1[i]
    ensures multiset(s1) != multiset(s2)
  {
    SelectAllClaimed(s2, mask, s1[i]);
    assert s1[..i + 1] == s1[..i] + [s1[i]];
    assert s1 == s1[..i + 1] + s1[i + 1..];
    assert multiset(s1)[s1[i]] > multiset(s2)[s1[i]];
  }

  /** Setting one more flag adds exactly that element to what is selected. */
  lemma {:induction false} SelectClaim<T>(b: seq<T>, mask: seq<bool>, j: nat)
    requires |mask| == |b| && j < |b| && !mask[j]
    ensures multiset(Select(b, mask[j := true])) == multiset(Select(b, mask)) + multiset{b[j]}
    decreases |b|
  {
    var n := |b| - 1;
    if j < n {
      assert mask[j := true][..n] == mask[..n][j := true];
      SelectClaim(b[..n], mask[..n], j);
    } else {
      assert mask[j := true][..n] == mask[..n];
    }
  }

  /** Once every slot holding `x` is flagged, the selection counts `x` as often as `b` does. */
  lemma {:induction false} SelectAllClaimed<T>(b: seq<T>, mask: seq<bool>, x: T)
    requires |mask| == |b|
    requires forall k :: 0 <= k < |b| ==> mask[k] || b[k] != x
    ensures multiset(Select(b, mask))[x] == multiset(b)[x]
    decreases |b|
  {
    if b != [] {
      var n := |b| - 1;
      SelectAllClaimed(b[..n], mask[..n], x);
      assert b == b[..n] + [b[n]];
    }
  }

  /** Selecting as many elements as there are selects them all. */
  lemma {:induction false} SelectFull<T>(b: seq<T>, mask: seq<bool>)
    requires |mask| == |b| && |Select(b, mask)| == |b|
    ensures Select(b, mask) == b
    decreases |b|
  {
    if b != [] {
      var n := |b| - 1;
      SelectFull(b[..n], mask[..n]);
      assert b == b[..n] + [b[n]];
    }
  }

  /** The first occurrence of each element, in the order of first occurrence. */
  function Dedup<T(==)>(s: seq<T>): (r: seq<T>)
    decreases |s|
  {
    if s == [] then []
    else
      var p := s[..|s| - 1];
      var x := s[|s| - 1];
      if x in p then Dedup(p) else Dedup(p) + [x]
  }

  /**
   * `RemoveDuplicates`: a set of seen strings (the Go map `keys`) and the result
   * list, extended by each string not seen before.
   */
  method RemoveDuplicates(stringSlice: seq<string>) returns (res: seq<string>)
    ensures res == Dedup(stringSlice)
  {
    var keys: map<string, bool> := map[];
    res := [];
    for i := 0 to |stringSlice|
      invariant res == Dedup(stringSlice[..i])
      invariant forall x :: x in keys <==> x in stringSlice[..i]
    {
      var itm := stringSlice[i];
      assert stringSlice[..i + 1][..i] == stringSlice[..i];
      assert stringSlice[..i + 1] == stringSlice[..i] + [itm];
      if itm !in keys {
        keys := keys[itm := true];
        res := res + [itm];
      }
    }
    assert stringSlice[..|stringSlice|] == stringSlice;
  }

  /** The result holds no repeated element and exactly the elements of the input. */
  lemma {:induction false} DedupDistinctSameElements<T>(s: seq<T>)
    ensures Distinct(Dedup(s))
    ensures forall x :: x in Dedup(s) <==> x in s
    decreases |s|
  {
    if s != [] {
      var p := s[..|s| - 1];
      DedupDistinctSameElements(p);
      assert s == p + [s[|s| - 1]];
    }
  }

  /** The result keeps the input's relative order: it is a subsequence of it. */
  lemma {:induction false} DedupSubsequence<T>(s: seq<T>)
    ensures IsSubsequence(Dedup(s), s)
    decreases |s|
  {
    if s == [] {
      SubsequenceNil(s);
    } else {
      var p := s[..|s| - 1];
      var x := s[|s| - 1];
      DedupSubsequence(p);
      SubsequenceSnoc(Dedup(p), p, x, x !in p);
      assert p + [x] == s;
    }
  }

  /** The position of the first occurrence of `x` in `s`. */
  function FirstIndex<T(==)>(s: seq<T>, x: T): (i: nat)
    requires x in s
    ensures i < |s| && s[i] == x && x !in s[..i]
  {
    if s[0] == x then 0 else 1 + FirstIndex(s[1..], x)
  }

  lemma {:induction false} FirstIndexSnoc<T>(p: seq<T>, x: T, y: T)
    requires y in p
    ensures FirstIndex(p + [x], y) == FirstIndex(p, y)
    decreases |p|
  {
    if p[0] != y {
      assert (p + [x])[1..] == p[1..] + [x];
      FirstIndexSnoc(p[1..], x, y);
    }
  }

  /**
   * The result lists each element where it first occurs: positions in the result
   * follow the order of first occurrences in the input.
   */
  lemma {:induction false} DedupFirstOccurrenceOrder<T>(s: seq<T>)
    ensures forall x :: x in Dedup(s) ==> x in s
    ensures forall i, j :: 0 <= i < j < |Dedup(s)| ==>
      FirstIndex(s, Dedup(s)[i]) < FirstIndex(s, Dedup(s)[j])
    decreases |s|
  {
    DedupDistinctSameElements(s);
    if s != [] {
      var p := s[..|s| - 1];
      var x := s[|s| - 1];
      DedupFirstOccurrenceOrder(p);
      DedupDistinctSameElements(p);
      assert s == p + [x];
      var r := Dedup(s);
      forall i, j | 0 <= i < j < |r| ensures FirstIndex(s, r[i]) < FirstIndex(s, r[j]) {
        FirstIndexSnoc(p, x, r[i]);
        if j < |Dedup(p)| {
          FirstIndexSnoc(p, x, r[j]);
        } else {
          assert r[j] == x && x !in p;
          assert FirstIndex(s, x) == |p|;
        }
      }
    }
  }

  /** A duplicate-free input comes back unchanged. */
  lemma {:induction false} DedupOfDistinct<T>(s: seq<T>)
    requires Distinct(s)
    ensures Dedup(s) == s
    decreases |s|
  {
    if s != [] {
      var p := s[..|s| - 1];
      DedupOfDistinct(p);
      assert s == p + [s[|s| - 1]];
    }
  }

  /** Removing duplicates twice is removing them once. */
  lemma DedupIdempotent<T>(s: seq<T>)
    ensures Dedup(Dedup(s)) == Dedup(s)
  {
    DedupDistinctSameElements(s);
    DedupOfDistinct(Dedup(s));
  }
}
