/**
  The parts of Go's `strings` and `strconv` packages the core relies on, over
  `string` = `seq<char>`. Lexicographic order over code points is the order
  of their UTF-8 bytes, so `Less` is Go's `<` on strings. Where the source
  measures or cuts a string by position, its bytes are `Utf8` of it.
 */
module Text {
  import opened Wrappers

  // ---------------------------------------------------------------------------
  // Go's `<` on strings

  /** Lexicographic order, as Go compares strings. */
  predicate Less(a: string, b: string)
    decreases |a|
  {
    if |a| == 0 then |b| > 0
    else if |b| == 0 then false
    else if a[0] != b[0] then a[0] < b[0]
    else Less(a[1..], b[1..])
  }

  lemma {:induction false} LessIrreflexive(a: string)
    ensures !Less(a, a)
    decreases |a|
  {
    if |a| > 0 {
      LessIrreflexive(a[1..]);
    }
  }

  /** Exactly one of `a < b`, `a == b`, `b < a` holds. */
  lemma {:induction false} LessTrichotomy(a: string, b: string)
    ensures a == b || Less(a, b) || Less(b, a)
    ensures !(Less(a, b) && Less(b, a))
    decreases |a|
  {
    if |a| > 0 && |b| > 0 && a[0] == b[0] {
      LessTrichotomy(a[1..], b[1..]);
      if a[1..] == b[1..] {
        assert a == [a[0]] + a[1..] && b == [b[0]] + b[1..];
      }
    }
  }

  lemma {:induction false} LessTransitive(a: string, b: string, c: string)
    requires Less(a, b) && Less(b, c)
    ensures Less(a, c)
    decreases |a|
  {
    if |a| > 0 && a[0] == b[0] && b[0] == c[0] {
      LessTransitive(a[1..], b[1..], c[1..]);
    }
  }

  /** "Not less than" is transitive: the order is a total preorder. */
  lemma NotLessTransitive(a: string, b: string, c: string)
    requires !Less(b, a) && !Less(c, b)
    ensures !Less(c, a)
  {
    LessTrichotomy(a, b);
    LessTrichotomy(b, c);
    LessTrichotomy(a, c);
    if Less(c, a) && a != b && b != c {
      LessTransitive(c, b, a);
    }
  }

  // ---------------------------------------------------------------------------
  // strings.Split with a one-character separator, and its inverse

  /** The index of the first occurrence of `c` in `s`. */
  function FirstIndexOf(s: string, c: char): (i: nat)
    requires c in s
    ensures i < |s| && s[i] == c && c !in s[..i]
  {
    if s[0] == c then 0
    else
      var j := FirstIndexOf(s[1..], c);
      assert s[..j + 1] == [s[0]] + s[1..][..j];
      j + 1
  }

  lemma FirstIndexOfUnique(s: string, c: char, i: nat)
    requires i < |s| && s[i] == c && c !in s[..i]
    ensures c in s && FirstIndexOf(s, c) == i
  {
  }

  /** strings.Split(s, sep): the pieces between the separators, never an empty list. */
  function Split(s: string, sep: char): (parts: seq<string>)
    ensures |parts| > 0
    ensures forall i :: 0 <= i < |parts| ==> sep !in parts[i]
    decreases |s|
  {
    if sep in s then
      var i := FirstIndexOf(s, sep);
      [s[..i]] + Split(s[i + 1..], sep)
    else
      [s]
  }

  /** strings.Join(parts, sep). */
  function Join(parts: seq<string>, sep: char): string
    requires |parts| > 0
  {
    if |parts| == 1 then parts[0] else parts[0] + [sep] + Join(parts[1..], sep)
  }

  function Last<T>(s: seq<T>): T
    requires |s| > 0
  {
    s[|s| - 1]
  }

  /** Joining the pieces back gives the original string. */
  lemma {:induction false} JoinSplit(s: string, sep: char)
    ensures Join(Split(s, sep), sep) == s
    decreases |s|
  {
    if sep in s {
      var i := FirstIndexOf(s, sep);
      JoinSplit(s[i + 1..], sep);
      assert s == s[..i] + [sep] + s[i + 1..];
    }
  }

  /** Splitting a join of separator-free pieces gives the pieces back. */
  lemma {:induction false} SplitJoin(parts: seq<string>, sep: char)
    requires |parts| > 0
    requires forall i :: 0 <= i < |parts| ==> sep !in parts[i]
    ensures Split(Join(parts, sep), sep) == parts
    decreases |parts|
  {
    if |parts| > 1 {
      var s := Join(parts, sep);
      var p := parts[0];
      assert s[..|p|] == p;
      assert s[|p|] == sep;
      FirstIndexOfUnique(s, sep, |p|);
      assert s[|p| + 1..] == Join(parts[1..], sep);
      SplitJoin(parts[1..], sep);
      assert parts == [parts[0]] + parts[1..];
    }
  }

  /** The first piece is the text before the first separator (all of `s` if there is none). */
  lemma FirstOfSplit(s: string, sep: char)
    ensures sep !in s ==> Split(s, sep) == [s]
    ensures sep in s ==> Split(s, sep)[0] == s[..FirstIndexOf(s, sep)] && |Split(s, sep)| >= 2
  {
  }

  /** The last piece is the text after the last separator (all of `s` if there is none). */
  lemma {:induction false} LastOfSplit(s: string, sep: char)
    ensures var r := Last(Split(s, sep));
      && |r| <= |s| && r == s[|s| - |r|..] && sep !in r
      && (|r| < |s| ==> s[|s| - |r| - 1] == sep)
    decreases |s|
  {
    if sep in s {
      var i := FirstIndexOf(s, sep);
      var rest := s[i + 1..];
      LastOfSplit(rest, sep);
      assert Last(Split(s, sep)) == Last(Split(rest, sep));
    }
  }

  /** The text after the last `sep`; the whole string when there is none. */
  function LastSegment(s: string, sep: char): (r: string)
  {
    Last(Split(s, sep))
  }

  /** A character within the last `m` characters of `s` is not `sep` when those contain no `sep`. */
  lemma NoSepWithin(s: string, sep: char, n: nat, m: nat)
    requires n <= |s| && m <= |s| && sep !in s[|s| - m..]
    ensures n < m ==> s[|s| - n - 1] != sep
  {
    if n < m {
      assert s[|s| - n - 1] == s[|s| - m..][m - n - 1];
    }
  }

  /**
    A suffix of `s` without `sep` that is either all of `s` or preceded by
    `sep` is the last segment: there is only one such suffix.
   */
  lemma LastSegmentUnique(s: string, sep: char, r: string)
    requires |r| <= |s| && r == s[|s| - |r|..] && sep !in r
    requires |r| < |s| ==> s[|s| - |r| - 1] == sep
    ensures LastSegment(s, sep) == r
  {
    LastOfSplit(s, sep);
    var l := LastSegment(s, sep);
    NoSepWithin(s, sep, |l|, |r|);
    NoSepWithin(s, sep, |r|, |l|);
  }

  /** The last segment of a string that ends with `sep` followed by `b` is the last segment of `b`. */
  lemma LastSegmentAfter(a: string, sep: char, b: string)
    ensures LastSegment(a + [sep] + b, sep) == LastSegment(b, sep)
  {
    LastOfSplit(b, sep);
    var r := LastSegment(b, sep);
    var s := a + [sep] + b;
    assert s[|s| - |r|..] == b[|b| - |r|..];
    LastSegmentUnique(s, sep, r);
  }

  /** The last segment of a join is the last piece, when that piece has no separator. */
  lemma {:induction false} LastSegmentOfJoin(parts: seq<string>, sep: char)
    requires |parts| > 0 && sep !in Last(parts)
    ensures LastSegment(Join(parts, sep), sep) == Last(parts)
    decreases |parts|
  {
    if |parts| == 1 {
      LastSegmentUnique(parts[0], sep, parts[0]);
    } else {
      LastSegmentOfJoin(parts[1..], sep);
      LastSegmentAfter(parts[0], sep, Join(parts[1..], sep));
    }
  }

  // ---------------------------------------------------------------------------
  // strings.Index, HasSuffix, TrimSuffix, Trim, ToLower

  predicate OccursAt(s: string, pat: string, k: nat) {
    k + |pat| <= |s| && s[k..k + |pat|] == pat
  }

  function IndexFrom(s: string, pat: string, k: nat): (r: Option<nat>)
    decreases |s| - k
    ensures r.Some? ==> k <= r.value && OccursAt(s, pat, r.value)
    ensures r.Some? ==> forall j: nat :: k <= j < r.value ==> !OccursAt(s, pat, j)
    ensures r.None? ==> forall j: nat :: k <= j ==> !OccursAt(s, pat, j)
  {
    if k + |pat| > |s| then None
    else if s[k..k + |pat|] == pat then Some(k)
    else IndexFrom(s, pat, k + 1)
  }

  /** strings.Index: the first position where `pat` occurs, None for Go's -1. */
  function Index(s: string, pat: string): (r: Option<nat>)
    ensures r.Some? ==> OccursAt(s, pat, r.value) && forall j: nat :: j < r.value ==> !OccursAt(s, pat, j)
    ensures r.None? ==> forall j: nat :: !OccursAt(s, pat, j)
  {
    IndexFrom(s, pat, 0)
  }

  predicate HasSuffix(s: string, suffix: string) {
    |suffix| <= |s| && s[|s| - |suffix|..] == suffix
  }

  function TrimSuffix(s: string, suffix: string): (r: string)
    ensures HasSuffix(s, suffix) ==> r + suffix == s
    ensures !HasSuffix(s, suffix) ==> r == s
  {
    if HasSuffix(s, suffix) then s[..|s| - |suffix|] else s
  }

  function TrimLeft(s: string, c: char): (r: string)
    ensures |r| <= |s| && r == s[|s| - |r|..]
    ensures forall i :: 0 <= i < |s| - |r| ==> s[i] == c
    ensures |r| > 0 ==> r[0] != c
  {
    if |s| > 0 && s[0] == c then
      var r := TrimLeft(s[1..], c);
      assert s[|s| - |r|..] == s[1..][|s| - 1 - |r|..];
      assert forall i :: 1 <= i < |s| - |r| ==> s[i] == s[1..][i - 1];
      r
    else s
  }

  function TrimRight(s: string, c: char): (r: string)
    ensures |r| <= |s| && r == s[..|r|]
    ensures forall i :: |r| <= i < |s| ==> s[i] == c
    ensures |r| > 0 ==> r[|r| - 1] != c
  {
    if |s| > 0 && s[|s| - 1] == c then TrimRight(s[..|s| - 1], c) else s
  }

  /** strings.Trim(s, string(c)): `s` without its leading and trailing `c`s. */
  function Trim(s: string, c: char): (r: string)
    ensures |r| > 0 ==> r[0] != c && r[|r| - 1] != c
  {
    TrimRight(TrimLeft(s, c), c)
  }

  function LowerChar(c: char): char {
    if 'A' <= c <= 'Z' then (c as int + 32) as char else c
  }

  /** strings.ToLower restricted to ASCII letters. */
  function ToLower(s: string): (r: string)
    ensures |r| == |s|
  {
    seq(|s|, i requires 0 <= i < |s| => LowerChar(s[i]))
  }

  // ---------------------------------------------------------------------------
  // The bytes of a Go string: len and slicing count UTF-8 bytes

  newtype byte = x: int | 0 <= x < 256

  /** The UTF-8 encoding of one character (a Unicode scalar value): one to four bytes. */
  function EncodeChar(c: char): (bs: seq<byte>)
    ensures 1 <= |bs| <= 4
    ensures |bs| == 1 <==> c as int < 0x80
    ensures |bs| == 1 ==> bs[0] as int == c as int
    ensures |bs| > 1 ==> bs[0] >= 0xC0 && forall k :: 1 <= k < |bs| ==> 0x80 <= bs[k] < 0xC0
  {
    var n := c as int;
    if n < 0x80 then [n as byte]
    else if n < 0x800 then [(0xC0 + n / 64) as byte, (0x80 + n % 64) as byte]
    else if n < 0x1_0000 then [(0xE0 + n / 4096) as byte, (0x80 + n / 64 % 64) as byte, (0x80 + n % 64) as byte]
    else [(0xF0 + n / 262144) as byte, (0x80 + n / 4096 % 64) as byte, (0x80 + n / 64 % 64) as byte, (0x80 + n % 64) as byte]
  }

  /** The bytes Go holds for a string: each character's UTF-8 encoding, in order. */
  function Utf8(s: string): (bs: seq<byte>)
    ensures |bs| >= |s|
  {
    if s == [] then [] else Utf8(s[..|s| - 1]) + EncodeChar(s[|s| - 1])
  }

  lemma {:induction false} Utf8Append(a: string, b: string)
    ensures Utf8(a + b) == Utf8(a) + Utf8(b)
    decreases |b|
  {
    if b != [] {
      var b' := b[..|b| - 1];
      assert (a + b)[..|a + b| - 1] == a + b';
      Utf8Append(a, b');
    } else {
      assert a + b == a;
    }
  }

  /**
    A string is as long in bytes as in characters exactly when it is ASCII;
    a non-ASCII character makes the byte length strictly larger.
   */
  lemma {:induction false} Utf8Length(s: string)
    ensures |Utf8(s)| == |s| <==> forall i :: 0 <= i < |s| ==> s[i] as int < 0x80
    decreases |s|
  {
    if s != [] {
      var s' := s[..|s| - 1];
      Utf8Length(s');
      assert forall i :: 0 <= i < |s'| ==> s'[i] == s[i];
    }
  }

  // ---------------------------------------------------------------------------
  // strconv.Atoi, fmt's %d, int64 arithmetic

  const MinInt64: int := -0x8000_0000_0000_0000
  const MaxInt64: int := 0x7fff_ffff_ffff_ffff

  /** Two's-complement wrap-around of an int64 result. */
  function WrapInt64(x: int): (r: int)
    ensures MinInt64 <= r <= MaxInt64
    ensures MinInt64 <= x <= MaxInt64 ==> r == x
  {
    (x - MinInt64) % 0x1_0000_0000_0000_0000 + MinInt64
  }

  predicate IsDigit(c: char) {
    '0' <= c <= '9'
  }

  predicate AllDigits(s: string) {
    forall i :: 0 <= i < |s| ==> IsDigit(s[i])
  }

  function DigitsValue(ds: string): nat
    requires AllDigits(ds)
  {
    if |ds| == 0 then 0
    else 10 * DigitsValue(ds[..|ds| - 1]) + (ds[|ds| - 1] as int - '0' as int)
  }

  /** strconv.Atoi: an optional sign and at least one decimal digit, within int64. */
  function Atoi(s: string): (r: Result<int, string>)
    ensures r.Success? ==> MinInt64 <= r.value <= MaxInt64
  {
    var signed := |s| > 0 && (s[0] == '+' || s[0] == '-');
    var digits := if signed then s[1..] else s;
    if |digits| == 0 || !AllDigits(digits) then Failure("invalid syntax")
    else
      var v: int := if signed && s[0] == '-' then -(DigitsValue(digits) as int) else DigitsValue(digits);
      if v < MinInt64 || v > MaxInt64 then Failure("value out of range") else Success(v)
  }

  function DigitChar(d: nat): char
    requires d < 10
  {
    ('0' as int + d) as char
  }

  /** fmt's %d of a natural number. */
  function NatToString(n: nat): (s: string)
    ensures |s| > 0 && AllDigits(s)
    ensures s[0] != '+' && s[0] != '-'
  {
    if n < 10 then [DigitChar(n)] else NatToString(n / 10) + [DigitChar(n % 10)]
  }

  /** fmt's %d of an integer. */
  function IntToString(n: int): (s: string)
  {
    if n < 0 then "-" + NatToString(-n) else NatToString(n)
  }

  lemma {:induction false} NatToStringValue(n: nat)
    ensures DigitsValue(NatToString(n)) == n
  {
    if n >= 10 {
      NatToStringValue(n / 10);
      var s := NatToString(n);
      assert s[..|s| - 1] == NatToString(n / 10);
    }
  }

  /** Atoi reads back every int64 that %d writes. */
  lemma AtoiIntToString(n: int)
    requires MinInt64 <= n <= MaxInt64
    ensures Atoi(IntToString(n)) == Success(n)
  {
    var s := IntToString(n);
    if n < 0 {
      var ds := NatToString(-n);
      NatToStringValue(-n);
      assert s == "-" + ds && s[0] == '-' && s[1..] == ds;
      assert -(DigitsValue(ds) as int) == n;
    } else {
      var ds := NatToString(n);
      NatToStringValue(n);
      assert s == ds && s[0] != '+' && s[0] != '-';
    }
  }
}
