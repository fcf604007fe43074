/** Python string primitives the track code relies on: `str.find`, `str.split`,
    `str.replace(word, "")`, character filtering and `str(int)`. */
module Strings {

  /** `a` is obtained from `b` by deleting some elements (greedy matching). */
  predicate IsSubsequence<T(==)>(a: seq<T>, b: seq<T>)
    decreases |b|
  {
    if a == [] then true
    else if b == [] then false
    else if a[0] == b[0] then IsSubsequence(a[1..], b[1..])
    else IsSubsequence(a, b[1..])
  }

  lemma {:induction false} SubsequenceRefl<T>(a: seq<T>)
    ensures IsSubsequence(a, a)
    decreases |a|
  {
    if a != [] {
      SubsequenceRefl(a[1..]);
    }
  }

  /** Dropping the first element of `a` keeps it a subsequence. */
  lemma {:induction false} SubsequenceDropHead<T>(a: seq<T>, b: seq<T>)
    requires a != [] && IsSubsequence(a, b)
    ensures IsSubsequence(a[1..], b)
    decreases |b|
  {
    if a[0] == b[0] {
      SubsequenceOfTail(a[1..], b);
    } else {
      SubsequenceDropHead(a, b[1..]);
      SubsequenceOfTail(a[1..], b);
    }
  }

  /** A subsequence of the tail of `b` is a subsequence of `b`. */
  lemma {:induction false} SubsequenceOfTail<T>(a: seq<T>, b: seq<T>)
    requires b != [] && IsSubsequence(a, b[1..])
    ensures IsSubsequence(a, b)
    decreases |b|, 0
  {
    if a != [] && a[0] == b[0] {
      SubsequenceDropHead(a, b[1..]);
    }
  }

  /** A subsequence of a suffix of `b` is a subsequence of `b`. */
  lemma {:induction false} SubsequenceOfSuffix<T>(a: seq<T>, b: seq<T>, n: nat)
    requires n <= |b| && IsSubsequence(a, b[n..])
    ensures IsSubsequence(a, b)
    decreases n
  {
    if n > 0 {
      assert b[1..][n - 1..] == b[n..];
      SubsequenceOfSuffix(a, b[1..], n - 1);
      SubsequenceOfTail(a, b);
    }
  }

  lemma {:induction false} SubsequenceTrans<T>(a: seq<T>, b: seq<T>, c: seq<T>)
    requires IsSubsequence(a, b) && IsSubsequence(b, c)
    ensures IsSubsequence(a, c)
    decreases |c|
  {
    if a != [] {
      if b[0] == c[0] {
        if a[0] == b[0] {
          SubsequenceTrans(a[1..], b[1..], c[1..]);
        } else {
          SubsequenceTrans(a, b[1..], c[1..]);
          SubsequenceOfTail(a, c);
        }
      } else {
        SubsequenceTrans(a, b, c[1..]);
        SubsequenceOfTail(a, c);
      }
    }
  }

  /** Every element of a subsequence occurs in the sequence. */
  lemma {:induction false} SubsequenceElements<T>(a: seq<T>, b: seq<T>)
    requires IsSubsequence(a, b)
    ensures forall x | x in a :: x in b
    decreases |b|
  {
    if a != [] {
      assert a == [a[0]] + a[1..];
      assert b == [b[0]] + b[1..];
      if a[0] == b[0] {
        SubsequenceElements(a[1..], b[1..]);
      } else {
        SubsequenceElements(a, b[1..]);
      }
    }
  }

  /** Python's `s.find(c)`: index of the first `c`, or -1. */
  function Find(s: string, c: char): (k: int)
    ensures -1 <= k < |s|
    ensures k == -1 <==> c !in s
    ensures k >= 0 ==> s[k] == c && c !in s[..k]
    decreases |s|
  {
    if s == [] then -1
    else if s[0] == c then 0
    else
      var k := Find(s[1..], c);
      assert s[1..][..if k < 0 then 0 else k] == s[1..1 + if k < 0 then 0 else k];
      if k < 0 then -1 else k + 1
  }

  /** Joins `parts` with the separator `sep` between consecutive parts. */
  function Join(parts: seq<string>, sep: char): string
    decreases |parts|
  {
    if parts == [] then ""
    else if |parts| == 1 then parts[0]
    else parts[0] + [sep] + Join(parts[1..], sep)
  }

  /** Python's `s.split(sep)` for a one-character separator. */
  function Split(s: string, sep: char): (parts: seq<string>)
    ensures |parts| >= 1
    ensures forall i | 0 <= i < |parts| :: sep !in parts[i]
    ensures Join(parts, sep) == s
    decreases |s|
  {
    var k := Find(s, sep);
    if k < 0 then [s]
    else
      var rest := Split(s[k + 1..], sep);
      assert s == s[..k] + [sep] + s[k + 1..];
      [s[..k]] + rest
  }

  /** Splitting undoes joining parts that do not contain the separator. */
  lemma {:induction false} SplitJoin(parts: seq<string>, sep: char)
    requires |parts| >= 1
    requires forall i | 0 <= i < |parts| :: sep !in parts[i]
    ensures Split(Join(parts, sep), sep) == parts
    decreases |parts|
  {
    if |parts| > 1 {
      var s := Join(parts, sep);
      var p := parts[0];
      assert s == p + [sep] + Join(parts[1..], sep);
      assert s == p + ([sep] + Join(parts[1..], sep));
      FindPastPrefix(p, [sep] + Join(parts[1..], sep), sep);
      assert Find(s, sep) == |p|;
      assert s[|p| + 1..] == Join(parts[1..], sep);
      SplitJoin(parts[1..], sep);
    } else {
      assert Join(parts, sep) == parts[0];
    }
  }

  /** `Find` skips a prefix that does not contain the character. */
  lemma {:induction false} FindPastPrefix(p: string, t: string, c: char)
    requires c !in p && t != [] && t[0] == c
    ensures Find(p + t, c) == |p|
    decreases |p|
  {
    if p != [] {
      assert (p + t)[1..] == p[1..] + t;
      FindPastPrefix(p[1..], t, c);
    } else {
      assert p + t == t;
    }
  }

  /** `Find` returns the first occurrence: any index holding `c` with no
      earlier `c` is the one `Find` reports. */
  lemma FindFirst(s: string, c: char, k: nat)
    requires k < |s| && s[k] == c && c !in s[..k]
    ensures Find(s, c) == k
  {
    var f := Find(s, c);
    assert forall i | 0 <= i < k :: s[..k][i] == s[i] && s[i] != c;
    assert forall i | 0 <= i < f :: s[..f][i] == s[i] && s[i] != c;
  }

  /** The characters of `s` that satisfy `keep`, in order. */
  function Filter(s: string, keep: char -> bool): (r: string)
    ensures |r| <= |s|
    decreases |s|
  {
    if s == [] then ""
    else if keep(s[0]) then [s[0]] + Filter(s[1..], keep)
    else Filter(s[1..], keep)
  }

  /** Filtering with a test every character passes changes nothing. */
  lemma {:induction false} FilterKeepsAll(s: string, keep: char -> bool)
    requires forall i | 0 <= i < |s| :: keep(s[i])
    ensures Filter(s, keep) == s
    decreases |s|
  {
    if s != [] {
      FilterKeepsAll(s[1..], keep);
    }
  }

  /** The filtered string holds exactly the characters of `s` that satisfy `keep`. */
  lemma {:induction false} FilterMembers(s: string, keep: char -> bool)
    ensures forall c | c in Filter(s, keep) :: keep(c) && c in s
    ensures forall c | c in s && keep(c) :: c in Filter(s, keep)
    decreases |s|
  {
    if s != [] {
      FilterMembers(s[1..], keep);
      assert s == [s[0]] + s[1..];
    }
  }

  /** Each kept character occurs in the filtered string as often as in `s`. */
  lemma {:induction false} FilterCounts(s: string, keep: char -> bool)
    ensures forall c :: multiset(Filter(s, keep))[c] == if keep(c) then multiset(s)[c] else 0
    decreases |s|
  {
    if s != [] {
      FilterCounts(s[1..], keep);
      assert s == [s[0]] + s[1..];
    }
  }

  lemma {:induction false} FilterIsSubsequence(s: string, keep: char -> bool)
    ensures IsSubsequence(Filter(s, keep), s)
    decreases |s|
  {
    if s != [] {
      FilterIsSubsequence(s[1..], keep);
      if !keep(s[0]) {
        SubsequenceOfTail(Filter(s, keep), s);
      }
    }
  }

  /** `w` occurs in `s` starting at index `i`. */
  predicate OccursAt(w: string, s: string, i: nat) {
    i + |w| <= |s| && s[i..i + |w|] == w
  }

  /** `w` occurs in `s` as a contiguous block. */
  predicate Occurs(w: string, s: string) {
    exists i: nat | i <= |s| :: OccursAt(w, s, i)
  }

  lemma OccursInTail(w: string, s: string)
    requires s != []
    ensures Occurs(w, s[1..]) ==> Occurs(w, s)
  {
    if Occurs(w, s[1..]) {
      var i: nat :| i <= |s[1..]| && OccursAt(w, s[1..], i);
      assert s[1..][i..i + |w|] == s[i + 1..i + 1 + |w|];
      assert OccursAt(w, s, i + 1);
    }
  }

  /** Python's `s.replace(w, "")`: deletes the non-overlapping occurrences of `w`
      found by scanning left to right. */
  function ReplaceAll(s: string, w: string): (r: string)
    requires |w| > 0
    ensures |r| <= |s|
    decreases |s|
  {
    if |s| < |w| then s
    else if s[..|w|] == w then ReplaceAll(s[|w|..], w)
    else [s[0]] + ReplaceAll(s[1..], w)
  }

  /** Deleting occurrences leaves a subsequence of the original. */
  lemma {:induction false} ReplaceAllSubsequence(s: string, w: string)
    requires |w| > 0
    ensures IsSubsequence(ReplaceAll(s, w), s)
    decreases |s|
  {
    if |s| < |w| {
      SubsequenceRefl(s);
    } else if s[..|w|] == w {
      ReplaceAllSubsequence(s[|w|..], w);
      SubsequenceOfSuffix(ReplaceAll(s, w), s, |w|);
    } else {
      ReplaceAllSubsequence(s[1..], w);
    }
  }

  /** Without an occurrence of the word, nothing is deleted. */
  lemma {:induction false} ReplaceAllUntouched(s: string, w: string)
    requires |w| > 0 && !Occurs(w, s)
    ensures ReplaceAll(s, w) == s
    decreases |s|
  {
    if |s| >= |w| {
      assert !OccursAt(w, s, 0);
      OccursInTail(w, s);
      ReplaceAllUntouched(s[1..], w);
    }
  }

  /** A word holding a character absent from `s` is left untouched. */
  lemma ReplaceAbsent(s: string, w: string, c: char)
    requires |w| > 0 && c in w && c !in s
    ensures ReplaceAll(s, w) == s
  {
    ReplaceAllUntouched(s, w);
  }

  /** A prefix without the word's first character is copied unchanged. */
  lemma {:induction false} ReplaceSkipsPrefix(p: string, t: string, w: string)
    requires |w| > 0 && w[0] !in p
    ensures ReplaceAll(p + t, w) == p + ReplaceAll(t, w)
    decreases |p|
  {
    if p != [] {
      var s := p + t;
      assert s[1..] == p[1..] + t;
      ReplaceSkipsPrefix(p[1..], t, w);
      if |s| >= |w| {
        assert s[..|w|][0] == p[0];
      }
    } else {
      assert p + t == t;
    }
  }

  /** An occurrence at the front is deleted. */
  lemma ReplaceLeading(w: string, t: string)
    requires |w| > 0
    ensures ReplaceAll(w + t, w) == ReplaceAll(t, w)
  {
    assert (w + t)[..|w|] == w;
    assert (w + t)[|w|..] == t;
  }

  /** A single occurrence, preceded by none of its first character, is deleted. */
  lemma ReplaceSingle(s: string, p: string, w: string, t: string, c: char)
    requires |w| > 0 && s == p + w + t && w[0] !in p && c in w && c !in t
    ensures ReplaceAll(s, w) == p + t
  {
    assert s == p + (w + t);
    ReplaceSkipsPrefix(p, w + t, w);
    ReplaceLeading(w, t);
    ReplaceAbsent(t, w, c);
  }

  /** Filtering distributes over concatenation. */
  lemma {:induction false} FilterConcat(a: string, b: string, keep: char -> bool)
    ensures Filter(a + b, keep) == Filter(a, keep) + Filter(b, keep)
    decreases |a|
  {
    if a != [] {
      assert (a + b)[1..] == a[1..] + b;
      FilterConcat(a[1..], b, keep);
    } else {
      assert a + b == b;
    }
  }

  /** The decimal digit character for `d`. */
  function DigitChar(d: nat): char
    requires d < 10
  {
    ('0' as int + d) as char
  }

  /** Python's `str(n)` for a natural number. */
  function NatToDecimal(n: nat): (r: string)
    ensures |r| > 0
    ensures forall i | 0 <= i < |r| :: '0' <= r[i] <= '9'
    ensures r[0] == '0' <==> n == 0
    ensures |r| == 1 <==> n < 10
    decreases n
  {
    if n < 10 then [DigitChar(n)] else NatToDecimal(n / 10) + [DigitChar(n % 10)]
  }

  /** An optionally signed decimal integer literal. */
  predicate DecimalText(s: string)
  {
    s != [] && (s[0] == '-' || '0' <= s[0] <= '9') && forall i | 1 <= i < |s| :: '0' <= s[i] <= '9'
  }

  /** Decimal text as `str(int)` writes it: no leading zero, no `-0`. */
  predicate CanonicalDecimal(s: string)
  {
    DecimalText(s) &&
    (s[0] == '-' ==> |s| >= 2 && s[1] != '0') &&
    (s[0] == '0' ==> |s| == 1)
  }

  /** Python's `str(i)` for an integer: an optional minus sign then the digits. */
  function IntToDecimal(i: int): (r: string)
    ensures CanonicalDecimal(r)
    ensures r[0] == '-' <==> i < 0
  {
    if i < 0 then "-" + NatToDecimal(-i) else NatToDecimal(i)
  }

  /** The value of a string of decimal digits. */
  function DigitsValue(s: string): nat
    requires forall i | 0 <= i < |s| :: '0' <= s[i] <= '9'
    decreases |s|
  {
    if s == [] then 0 else DigitsValue(s[..|s| - 1]) * 10 + (s[|s| - 1] - '0') as nat
  }

  /** The value of an optionally signed decimal integer literal. */
  function DecimalValue(s: string): int
    requires DecimalText(s)
  {
    if s[0] == '-' then -(DigitsValue(s[1..]) as int) else DigitsValue(s)
  }

  lemma {:induction false} NatToDecimalValue(n: nat)
    ensures DigitsValue(NatToDecimal(n)) == n
    decreases n
  {
    var r := NatToDecimal(n);
    if n >= 10 {
      NatToDecimalValue(n / 10);
      assert r[..|r| - 1] == NatToDecimal(n / 10);
    }
  }

  predicate AllDecimalDigits(d: string)
  {
    forall i | 0 <= i < |d| :: '0' <= d[i] <= '9'
  }

  lemma ReadNegative(d: string)
    requires d != [] && AllDecimalDigits(d)
    ensures DecimalText("-" + d) && DecimalValue("-" + d) == -(DigitsValue(d) as int)
  {
    var r := "-" + d;
    assert r[1..] == d;
    assert forall k | 1 <= k < |r| :: r[k] == d[k - 1];
  }

  lemma ReadNonNegative(d: string)
    requires d != [] && AllDecimalDigits(d)
    ensures DecimalValue(d) == DigitsValue(d) as int
  {
  }

  /** A string of digits with a non-zero first digit has a positive value. */
  lemma {:induction false} LeadingDigitPositive(d: string)
    requires d != [] && AllDecimalDigits(d) && d[0] != '0'
    ensures DigitsValue(d) >= 1
    decreases |d|
  {
    if |d| == 1 {
      assert d[..0] == [];
    } else {
      LeadingDigitPositive(d[..|d| - 1]);
    }
  }

  lemma DigitCharOf(c: char)
    requires '0' <= c <= '9'
    ensures DigitChar((c - '0') as nat) == c
  {
  }

  /** Appending a digit to the text of a positive number writes ten times it
      plus the digit. */
  lemma AppendDigit(q: nat, c: char)
    requires q >= 1 && '0' <= c <= '9'
    ensures NatToDecimal(q * 10 + (c - '0') as nat) == NatToDecimal(q) + [c]
  {
    var v := q * 10 + (c - '0') as nat;
    assert v / 10 == q && v % 10 == (c - '0') as nat;
    DigitCharOf(c);
  }

  /** One digit more: if the text of a number's leading digits round-trips,
      so does the text of the whole number. */
  lemma DigitsStep(d: string)
    requires |d| >= 2 && AllDecimalDigits(d) && d[0] != '0'
    requires NatToDecimal(DigitsValue(d[..|d| - 1])) == d[..|d| - 1]
    ensures NatToDecimal(DigitsValue(d)) == d
  {
    var p := d[..|d| - 1];
    LeadingDigitPositive(p);
    AppendDigit(DigitsValue(p), d[|d| - 1]);
    assert d == p + [d[|d| - 1]];
  }

  /** Digits without a leading zero are the decimal text of their value. */
  lemma {:induction false} DigitsRoundTrip(d: string)
    requires d != [] && AllDecimalDigits(d) && (d[0] == '0' ==> |d| == 1)
    ensures NatToDecimal(DigitsValue(d)) == d
    decreases |d|
  {
    if |d| == 1 {
      assert d[..0] == [];
      DigitCharOf(d[0]);
    } else {
      DigitsRoundTrip(d[..|d| - 1]);
      DigitsStep(d);
    }
  }

  /** Canonical decimal text is exactly `str` of the integer it denotes: no
      other text reads back as the same integer. */
  lemma CanonicalUnique(s: string)
    requires CanonicalDecimal(s)
    ensures s == IntToDecimal(DecimalValue(s))
  {
    if s[0] == '-' {
      var d := s[1..];
      assert AllDecimalDigits(d) by {
        forall k | 0 <= k < |d|
          ensures '0' <= d[k] <= '9'
        {
          assert d[k] == s[k + 1];
        }
      }
      LeadingDigitPositive(d);
      DigitsRoundTrip(d);
      assert s == "-" + d;
    } else {
      DigitsRoundTrip(s);
    }
  }

  /** Reading back the decimal text of an integer gives the integer. */
  lemma DecimalRoundTrip(i: int)
    ensures IntToDecimal(i) != []
    ensures DecimalValue(IntToDecimal(i)) == i
  {
    var n: nat := if i < 0 then -i else i;
    var d := NatToDecimal(n);
    NatToDecimalValue(n);
    if i < 0 {
      ReadNegative(d);
    } else {
      ReadNonNegative(d);
    }
  }
}
