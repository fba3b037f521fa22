/**
 * The parts of Go's `strings`, `strconv` and `fmt` packages that the bot relies on,
 * written over `seq<char>`.  Case mapping is ASCII-only (see README, "Left out").
 */
module Strings {

  /** `unicode.IsSpace`: the white-space characters `strings.TrimSpace` removes. */
  predicate IsSpace(c: char) {
    c == ' ' || c == '\t' || c == '\n' || c == '\U{000B}' || c == '\U{000C}' || c == '\r'
    || c == '\U{0085}' || c == '\U{00A0}' || c == '\U{1680}'
    || ('\U{2000}' <= c <= '\U{200A}')
    || c == '\U{2028}' || c == '\U{2029}' || c == '\U{202F}' || c == '\U{205F}' || c == '\U{3000}'
  }

  predicate IsUpper(c: char) { 'A' <= c <= 'Z' }

  function LowerChar(c: char): (r: char)
    ensures !IsUpper(r)
    ensures IsUpper(c) ==> r as int == c as int + 32
    ensures !IsUpper(c) ==> r == c
  {
    if IsUpper(c) then (c as int + 32) as char else c
  }

  /** `strings.ToLower`, restricted to the ASCII letters. */
  function ToLower(s: string): (r: string)
    ensures |r| == |s|
    ensures forall i {:trigger r[i]} :: 0 <= i < |s| ==> r[i] == LowerChar(s[i])
  {
    seq(|s|, i requires 0 <= i < |s| => LowerChar(s[i]))
  }

  predicate IsLower(s: string) {
    forall i :: 0 <= i < |s| ==> !IsUpper(s[i])
  }

  lemma ToLowerOfLower(s: string)
    requires IsLower(s)
    ensures ToLower(s) == s
  {
  }

  lemma ToLowerConcat(a: string, b: string)
    ensures ToLower(a + b) == ToLower(a) + ToLower(b)
  {
    assert forall i :: 0 <= i < |a + b| ==> ToLower(a + b)[i] == (ToLower(a) + ToLower(b))[i];
  }

  function TrimLeftSpace(s: string): (r: string)
    ensures |r| <= |s|
    ensures forall i {:trigger r[i]} :: 0 <= i < |r| ==> r[i] == s[|s| - |r| + i]
    ensures r == [] || !IsSpace(r[0])
    ensures forall i :: 0 <= i < |s| - |r| ==> IsSpace(s[i])
  {
    if s != [] && IsSpace(s[0]) then
      var r := TrimLeftSpace(s[1..]);
      assert forall i :: 1 <= i < |s| - |r| ==> s[i] == s[1..][i - 1];
      r
    else s
  }

  function TrimRightSpace(s: string): (r: string)
    ensures |r| <= |s|
    ensures forall i {:trigger r[i]} :: 0 <= i < |r| ==> r[i] == s[i]
    ensures r == [] || !IsSpace(r[|r| - 1])
    ensures forall i :: |r| <= i < |s| ==> IsSpace(s[i])
  {
    if s != [] && IsSpace(s[|s| - 1]) then TrimRightSpace(s[..|s| - 1]) else s
  }

  /** `strings.TrimSpace`: drop leading and trailing white space. */
  function TrimSpace(s: string): (r: string)
    ensures |r| <= |s|
    ensures r == [] || (!IsSpace(r[0]) && !IsSpace(r[|r| - 1]))
  {
    TrimRightSpace(TrimLeftSpace(s))
  }

  /** `r` is the piece of `s` that starts at `k`. */
  predicate Piece(s: string, r: string, k: nat) {
    k + |r| <= |s| && r == s[k..k + |r|]
  }

  /** Everything in `s` before `k`, and from `k + m` on, is white space. */
  predicate SpaceAround(s: string, k: nat, m: nat) {
    && k + m <= |s|
    && (forall i :: 0 <= i < k ==> IsSpace(s[i]))
    && (forall i :: k + m <= i < |s| ==> IsSpace(s[i]))
  }

  /**
   * What `TrimSpace` keeps is the piece of `s` that starts after its leading white
   * space, and everything it drops on either side is white space.
   */
  lemma {:induction false} TrimSpacePiece(s: string)
    ensures var r := TrimSpace(s);
      var k := |s| - |TrimLeftSpace(s)|;
      Piece(s, r, k) && SpaceAround(s, k, |r|)
  {
    var l := TrimLeftSpace(s);
    LeftTrimmed(s);
    RightTrimmed(l);
    TrimmedPiece(s, l, TrimRightSpace(l));
  }

  /** `l` is what is left of `s` once white space is dropped from its start. */
  predicate SuffixAfterSpace(s: string, l: string) {
    && |l| <= |s|
    && (forall i {:trigger l[i]} :: 0 <= i < |l| ==> l[i] == s[|s| - |l| + i])
    && (forall i :: 0 <= i < |s| - |l| ==> IsSpace(s[i]))
  }

  /** `r` is what is left of `l` once white space is dropped from its end. */
  predicate PrefixBeforeSpace(l: string, r: string) {
    && |r| <= |l|
    && (forall i {:trigger r[i]} :: 0 <= i < |r| ==> r[i] == l[i])
    && (forall i :: |r| <= i < |l| ==> IsSpace(l[i]))
  }

  lemma {:induction false} LeftTrimmed(s: string)
    ensures SuffixAfterSpace(s, TrimLeftSpace(s))
  {
  }

  lemma {:induction false} RightTrimmed(s: string)
    ensures PrefixBeforeSpace(s, TrimRightSpace(s))
  {
  }

  /** A prefix `r` of a suffix `l` of `s`, with white space before `l` and after `r`, is a piece of `s` with white space on both sides. */
  lemma {:induction false} TrimmedPiece(s: string, l: string, r: string)
    requires SuffixAfterSpace(s, l) && PrefixBeforeSpace(l, r)
    ensures Piece(s, r, |s| - |l|) && SpaceAround(s, |s| - |l|, |r|)
  {
    var k := |s| - |l|;
    assert r == s[k..k + |r|] by {
      forall i | 0 <= i < |r|
        ensures r[i] == s[k..k + |r|][i]
      {
        assert r[i] == l[i];
      }
    }
    forall i | k + |r| <= i < |s|
      ensures IsSpace(s[i])
    {
      assert s[i] == l[i - k];
    }
  }

  /** What `TrimSpace` keeps is a piece of its input. */
  lemma TrimSpaceInfix(s: string)
    ensures Infix(TrimSpace(s), s)
  {
    var l := TrimLeftSpace(s);
    TrimLeftIsSuffix(s);
    TrimRightIsPrefix(l);
    PieceOccurs(s, |s| - |l|, |TrimRightSpace(l)|);
  }

  /** A prefix of a suffix occurs where the suffix starts. */
  lemma PieceOccurs(s: string, k: nat, m: nat)
    requires k + m <= |s|
    ensures OccursAt(s, s[k..][..m], k)
  {
    assert s[k..k + m] == s[k..][..m];
  }

  lemma TrimLeftIsSuffix(s: string)
    ensures TrimLeftSpace(s) == s[|s| - |TrimLeftSpace(s)|..]
  {
    var l := TrimLeftSpace(s);
    var k := |s| - |l|;
    assert forall i :: 0 <= i < |l| ==> l[i] == s[k..][i];
  }

  lemma TrimRightIsPrefix(s: string)
    ensures TrimRightSpace(s) == s[..|TrimRightSpace(s)|]
  {
    var r := TrimRightSpace(s);
    assert forall i :: 0 <= i < |r| ==> r[i] == s[..|r|][i];
  }

  /** Lower-casing neither creates nor removes white space. */
  lemma LowerKeepsSpace(c: char)
    ensures IsSpace(LowerChar(c)) == IsSpace(c)
  {
    if IsUpper(c) {
      assert 'a' <= LowerChar(c) <= 'z';
    }
  }

  /** Where the lower-cased string has only white space around a piece, so does `s`. */
  lemma LowerSpaceAround(s: string, k: nat, m: nat)
    requires SpaceAround(ToLower(s), k, m)
    ensures SpaceAround(s, k, m)
  {
    forall i | 0 <= i < |s|
      ensures IsSpace(ToLower(s)[i]) == IsSpace(s[i])
    {
      LowerKeepsSpace(s[i]);
    }
  }

  lemma TrimSpaceOfLower(s: string)
    requires IsLower(s)
    ensures IsLower(TrimSpace(s))
  {
    TrimSpaceInfix(s);
    var t := TrimSpace(s);
    var k :| OccursAt(s, t, k);
    forall i | 0 <= i < |t| ensures !IsUpper(t[i]) {
      assert t[i] == s[k + i];
    }
  }

  /** A string that neither starts nor ends with white space is left unchanged. */
  lemma TrimSpaceOfTrimmed(s: string)
    requires s == [] || (!IsSpace(s[0]) && !IsSpace(s[|s| - 1]))
    ensures TrimSpace(s) == s
  {
  }

  predicate NoSpace(s: string) {
    forall i :: 0 <= i < |s| ==> !IsSpace(s[i])
  }

  lemma TrimSpaceOfNoSpace(s: string)
    requires NoSpace(s)
    ensures TrimSpace(s) == s
  {
  }

  /** `sub` occurs in `s` starting at position `i`. */
  predicate OccursAt(s: string, sub: string, i: int) {
    0 <= i <= |s| - |sub| && s[i..i + |sub|] == sub
  }

  ghost predicate Infix(sub: string, s: string) {
    exists i :: OccursAt(s, sub, i)
  }

  /** `strings.Contains`: `sub` occurs somewhere in `s`. */
  predicate Contains(s: string, sub: string)
    decreases |s|
  {
    sub <= s || (s != [] && Contains(s[1..], sub))
  }

  lemma {:induction false} ContainsOccurs(s: string, sub: string)
    requires Contains(s, sub)
    ensures Infix(sub, s)
    decreases |s|
  {
    if sub <= s {
      assert OccursAt(s, sub, 0);
    } else {
      ContainsOccurs(s[1..], sub);
      var i :| OccursAt(s[1..], sub, i);
      assert s[1..][i..i + |sub|] == s[i + 1..i + 1 + |sub|];
      assert OccursAt(s, sub, i + 1);
    }
  }

  lemma {:induction false} OccursContains(s: string, sub: string, i: int)
    requires OccursAt(s, sub, i)
    ensures Contains(s, sub)
    decreases i
  {
    if i > 0 {
      assert s[1..][i - 1..i - 1 + |sub|] == s[i..i + |sub|];
      OccursContains(s[1..], sub, i - 1);
    } else {
      assert sub <= s;
    }
  }

  /** The recursive `Contains` agrees with the positional definition of a substring. */
  lemma ContainsAt(s: string, sub: string)
    ensures Contains(s, sub) <==> Infix(sub, s)
  {
    if Contains(s, sub) {
      ContainsOccurs(s, sub);
    }
    if Infix(sub, s) {
      var i :| OccursAt(s, sub, i);
      OccursContains(s, sub, i);
    }
  }

  /** `strings.TrimPrefix`. */
  function TrimPrefix(s: string, prefix: string): (r: string)
    ensures prefix <= s ==> s == prefix + r
    ensures !(prefix <= s) ==> r == s
  {
    if prefix <= s then s[|prefix|..] else s
  }

  /** `strings.Join`. */
  function Join(parts: seq<string>, sep: string): string
  {
    if parts == [] then ""
    else if |parts| == 1 then parts[0]
    else parts[0] + sep + Join(parts[1..], sep)
  }

  function IndexOf(s: string, c: char): (i: nat)
    requires c in s
    ensures i < |s| && s[i] == c && c !in s[..i]
  {
    if s[0] == c then 0 else 1 + IndexOf(s[1..], c)
  }

  /** `strings.Split(s, string(sep))`: always at least one part; joining the parts back gives `s`. */
  function Split(s: string, sep: char): (parts: seq<string>)
    ensures |parts| >= 1
    ensures forall i :: 0 <= i < |parts| ==> sep !in parts[i]
    ensures Join(parts, [sep]) == s
    decreases |s|
  {
    if sep !in s then [s]
    else
      var i := IndexOf(s, sep);
      var rest := Split(s[i + 1..], sep);
      assert s == s[..i] + [sep] + s[i + 1..];
      [s[..i]] + rest
  }

  function DigitChar(d: nat): (c: char)
    requires d < 10
  {
    "0123456789"[d]
  }

  predicate IsDigit(c: char) { '0' <= c <= '9' }

  function DigitValue(c: char): (d: nat)
    requires IsDigit(c)
    ensures d < 10
  {
    c as int - '0' as int
  }

  /** Decimal digits of `n`, as `fmt`'s `%d` prints a non-negative integer. */
  function Decimal(n: nat): (r: string)
    ensures |r| >= 1
    ensures forall i :: 0 <= i < |r| ==> IsDigit(r[i])
  {
    if n < 10 then [DigitChar(n)] else Decimal(n / 10) + [DigitChar(n % 10)]
  }

  predicate AllDigits(s: string) {
    forall i :: 0 <= i < |s| ==> IsDigit(s[i])
  }

  function DigitsValue(s: string): nat
    requires AllDigits(s)
  {
    if s == [] then 0 else 10 * DigitsValue(s[..|s| - 1]) + DigitValue(s[|s| - 1])
  }

  lemma {:induction false} DecimalValue(n: nat)
    ensures AllDigits(Decimal(n)) && DigitsValue(Decimal(n)) == n
  {
    if n >= 10 {
      DecimalValue(n / 10);
      var d := Decimal(n);
      assert d[..|d| - 1] == Decimal(n / 10);
    }
  }

  /** `%d` of a signed integer. */
  function SignedDecimal(n: int): string
  {
    if n >= 0 then Decimal(n) else "-" + Decimal(-n)
  }

  const MinInt64: int := -0x8000_0000_0000_0000
  const MaxInt64: int := 0x7FFF_FFFF_FFFF_FFFF
  const MaxUint64: int := 0xFFFF_FFFF_FFFF_FFFF

  /** The longest run of decimal digits at the start of `s`. */
  function DigitRun(s: string): (p: string)
    ensures AllDigits(p) && |p| <= |s| && p == s[..|p|]
    ensures |p| < |s| ==> !IsDigit(s[|p|])
    ensures AllDigits(s) ==> p == s
  {
    if s != [] && IsDigit(s[0]) then [s[0]] + DigitRun(s[1..]) else []
  }

  /** Digits read after digits never lower the value read so far. */
  lemma {:induction false} DigitsValueGrows(a: string, b: string)
    requires AllDigits(a + b)
    ensures AllDigits(a) && DigitsValue(a) <= DigitsValue(a + b)
    decreases |b|
  {
    assert AllDigits(a) by {
      forall i | 0 <= i < |a| ensures IsDigit(a[i]) { assert a[i] == (a + b)[i]; }
    }
    if b == [] {
      assert a + b == a;
    } else {
      var b' := b[..|b| - 1];
      assert (a + b)[..|a + b| - 1] == a + b';
      assert AllDigits(a + b') by {
        forall i | 0 <= i < |a + b'| ensures IsDigit((a + b')[i]) { assert (a + b')[i] == (a + b)[i]; }
      }
      DigitsValueGrows(a, b');
      assert DigitsValue(a + b) == 10 * DigitsValue(a + b') + DigitValue((a + b)[|a + b| - 1]);
    }
  }

  /** Outcome of `strconv.ParseInt(s, 10, 64)`. */
  datatype IntParse = SyntaxError | RangeError(clamped: int) | Parsed(value: int)

  /** What follows an optional leading sign. */
  function Unsigned(s: string): (r: string)
    ensures |s| > 0 && (s[0] == '-' || s[0] == '+') ==> s == [s[0]] + r
    ensures !(|s| > 0 && (s[0] == '-' || s[0] == '+')) ==> r == s
  {
    if |s| > 0 && (s[0] == '-' || s[0] == '+') then s[1..] else s
  }

  /**
   * `strconv.ParseInt(s, 10, 64)`. The digit loop of `ParseUint` stops with a range
   * error as soon as the digits read so far exceed 2^64 - 1, before it looks at what
   * follows them; `ParseInt` then clamps to the bound on the sign's side.
   */
  function ParseInt(s: string): (r: IntParse)
    ensures r.SyntaxError? <==>
      Unsigned(s) == [] || (!AllDigits(Unsigned(s)) && DigitsValue(DigitRun(Unsigned(s))) <= MaxUint64)
    ensures DigitsValue(DigitRun(Unsigned(s))) > MaxUint64 ==> r.RangeError?
    ensures r.Parsed? ==> MinInt64 <= r.value <= MaxInt64
    ensures r.Parsed? ==> (AllDigits(Unsigned(s)) &&
      r.value == (if |s| > 0 && s[0] == '-' then -(DigitsValue(Unsigned(s)) as int) else DigitsValue(Unsigned(s))))
    ensures r.RangeError? ==> DigitsValue(DigitRun(Unsigned(s))) > MaxInt64
    ensures r.RangeError? ==> (r.clamped == MinInt64 <==> |s| > 0 && s[0] == '-')
    ensures r.RangeError? ==> r.clamped == MinInt64 || r.clamped == MaxInt64
  {
    var neg := |s| > 0 && s[0] == '-';
    var digits := Unsigned(s);
    if digits == [] then SyntaxError
    else if DigitsValue(DigitRun(digits)) > MaxUint64 then
      RangeError(if neg then MinInt64 else MaxInt64)
    else if !AllDigits(digits) then SyntaxError
    else
      var m: int := DigitsValue(digits);
      var v := if neg then -m else m;
      if v < MinInt64 then RangeError(MinInt64)
      else if v > MaxInt64 then RangeError(MaxInt64)
      else Parsed(v)
  }

  /** The digit run of `d + t` starts with all of `d` when `d` is digits, so its value is at least `d`'s. */
  lemma DigitRunCovers(d: string, t: string)
    requires AllDigits(d)
    ensures DigitsValue(d) <= DigitsValue(DigitRun(d + t))
  {
    var u := d + t;
    var p := DigitRun(u);
    assert forall i :: 0 <= i < |d| ==> u[i] == d[i];
    assert |d| <= |p|;
    assert p == d + p[|d|..];
    DigitsValueGrows(d, p[|d|..]);
  }

  /** After an optional sign and a digit, `Unsigned` drops exactly the sign. */
  lemma SignThenDigits(sign: string, d: string, t: string)
    requires sign == [] || sign == "-" || sign == "+"
    requires d != [] && IsDigit(d[0])
    ensures Unsigned(sign + d + t) == d + t
    ensures |sign + d + t| > 0 && ((sign + d + t)[0] == '-' <==> sign == "-")
  {
    var s := sign + d + t;
    if sign == [] {
      assert s == d + t && s[0] == d[0];
    } else {
      assert s[0] == sign[0] && s[1..] == d + t;
    }
  }

  /** Once the leading digits overflow 64 bits, whatever follows them is never read. */
  lemma ParseIntOverflowIgnoresRest(sign: string, d: string, t: string)
    requires sign == [] || sign == "-" || sign == "+"
    requires AllDigits(d) && DigitsValue(d) > MaxUint64
    ensures ParseInt(sign + d + t) == RangeError(if sign == "-" then MinInt64 else MaxInt64)
  {
    var s := sign + d + t;
    SignThenDigits(sign, d, t);
    assert DigitsValue(DigitRun(d + t)) > MaxUint64 by {
      DigitRunCovers(d, t);
    }
    assert ParseInt(s).RangeError?;
  }

  /** Decimal digits alone, worth at most `MaxInt64`, parse to their value. */
  lemma ParseIntOfDigits(s: string)
    requires s != [] && AllDigits(s) && DigitsValue(s) <= MaxInt64
    ensures ParseInt(s) == Parsed(DigitsValue(s))
  {
    assert IsDigit(s[0]);
    assert Unsigned(s) == s;
  }

  lemma {:induction false} ParseIntOfDecimal(n: nat)
    requires n <= MaxInt64
    ensures ParseInt(Decimal(n)) == Parsed(n)
  {
    DecimalValue(n);
    ParseIntOfDigits(Decimal(n));
  }

  /** Every 64-bit integer, printed with `%d`, parses back to itself. */
  lemma {:induction false} ParseIntOfSignedDecimal(n: int)
    requires MinInt64 <= n <= MaxInt64
    ensures ParseInt(SignedDecimal(n)) == Parsed(n)
  {
    if n >= 0 {
      ParseIntOfDecimal(n);
    } else {
      DecimalValue(-n);
      assert Unsigned(SignedDecimal(n)) == Decimal(-n);
    }
  }
}
