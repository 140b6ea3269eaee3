/**
  The Python string built-ins the toolkit leans on, restated over `string`
  (a sequence of Unicode code points): lowering, whitespace, stripping,
  splitting, substring search, integer rendering and the code-point order
  that `sorted()` uses on dictionary keys.
*/
module PyStrings {

  // ---------------------------------------------------------------------
  // Case and whitespace
  // ---------------------------------------------------------------------

  /** `str.lower()` restricted to ASCII letters. */
  function LowerChar(c: char): char {
    if 'A' <= c <= 'Z' then (c as int + 32) as char else c
  }

  function Lower(s: string): (r: string)
    ensures |r| == |s|
    ensures forall i :: 0 <= i < |s| ==> r[i] == LowerChar(s[i])
  {
    seq(|s|, i requires 0 <= i < |s| => LowerChar(s[i]))
  }

  /** The characters for which Python's `str.isspace()` holds. */
  predicate IsSpace(c: char) {
    var n := c as int;
    n == 32 || 9 <= n <= 13 || 28 <= n <= 31 || n == 0x85 || n == 0xA0
    || n == 0x1680 || 0x2000 <= n <= 0x200A || n == 0x2028 || n == 0x2029
    || n == 0x202F || n == 0x205F || n == 0x3000
  }

  function LStrip(s: string): (r: string)
    ensures |r| <= |s| && r == s[|s| - |r|..]
    ensures r == [] || !IsSpace(r[0])
    ensures forall i :: 0 <= i < |s| - |r| ==> IsSpace(s[i])
  {
    if s != [] && IsSpace(s[0]) then LStrip(s[1..]) else s
  }

  function RStrip(s: string): (r: string)
    ensures |r| <= |s| && r == s[..|r|]
    ensures r == [] || !IsSpace(r[|r| - 1])
    ensures forall i :: |r| <= i < |s| ==> IsSpace(s[i])
  {
    if s != [] && IsSpace(s[|s| - 1]) then RStrip(s[..|s| - 1]) else s
  }

  /** `str.strip()` with no argument. */
  function Strip(s: string): (r: string)
    ensures r == [] || (!IsSpace(r[0]) && !IsSpace(r[|r| - 1]))
  {
    RStrip(LStrip(s))
  }

  /** Stripping only removes characters: whatever `Strip(s)` holds, `s` holds. */
  lemma {:induction false} StripKeepsOnlyCharsOf(s: string)
    ensures forall k :: 0 <= k < |Strip(s)| ==> Strip(s)[k] in s
  {
    var l := LStrip(s);
    forall k | 0 <= k < |Strip(s)| ensures Strip(s)[k] in s {
      assert Strip(s)[k] == l[k];
      assert l[k] == s[|s| - |l| + k];
    }
  }

  // ---------------------------------------------------------------------
  // Substrings
  // ---------------------------------------------------------------------

  predicate OccursAt(s: string, p: string, i: nat) {
    i + |p| <= |s| && s[i..i + |p|] == p
  }

  /** `s.find(p, from)`: the first occurrence of `p` at or after `from`, or -1. */
  function IndexOf(s: string, p: string, from: nat): (r: int)
    ensures r == -1 || (from <= r && OccursAt(s, p, r))
    ensures r == -1 ==> forall i :: from <= i ==> !OccursAt(s, p, i)
    ensures r != -1 ==> forall i :: from <= i < r ==> !OccursAt(s, p, i)
    decreases |s| - from
  {
    if from + |p| > |s| then -1
    else if OccursAt(s, p, from) then from
    else IndexOf(s, p, from + 1)
  }

  /** Python's `p in s` for two strings. */
  predicate Contains(s: string, p: string) {
    IndexOf(s, p, 0) != -1
  }

  lemma {:induction false} ContainsIff(s: string, p: string)
    ensures Contains(s, p) <==> exists i: nat :: OccursAt(s, p, i)
  {
    if Contains(s, p) {
      var i: nat := IndexOf(s, p, 0);
      assert OccursAt(s, p, i);
    }
  }

  predicate StartsWith(s: string, p: string) {
    |p| <= |s| && s[..|p|] == p
  }

  predicate EndsWith(s: string, p: string) {
    |p| <= |s| && s[|s| - |p|..] == p
  }

  /** `s.replace(a, b)` for single characters. */
  function ReplaceChar(s: string, a: char, b: char): (r: string)
    ensures |r| == |s|
    ensures forall i :: 0 <= i < |s| ==> r[i] == (if s[i] == a then b else s[i])
  {
    seq(|s|, i requires 0 <= i < |s| => if s[i] == a then b else s[i])
  }

  // ---------------------------------------------------------------------
  // Splitting on one character
  // ---------------------------------------------------------------------

  function CountChar(s: string, c: char): nat {
    if s == [] then 0 else (if s[0] == c then 1 else 0) + CountChar(s[1..], c)
  }

  /** `s.split(sep)` for a one-character separator. */
  function Split(s: string, sep: char): (r: seq<string>)
    ensures |r| == CountChar(s, sep) + 1
    ensures forall k :: 0 <= k < |r| ==> sep !in r[k]
  {
    if s == [] then [[]]
    else
      var rest := Split(s[1..], sep);
      if s[0] == sep then [[]] + rest
      else [[s[0]] + rest[0]] + rest[1..]
  }

  /** `sep.join(parts)`. */
  function Join(parts: seq<string>, sep: char): string {
    if parts == [] then []
    else if |parts| == 1 then parts[0]
    else parts[0] + [sep] + Join(parts[1..], sep)
  }

  lemma {:induction false} JoinSplit(s: string, sep: char)
    ensures Join(Split(s, sep), sep) == s
  {
    if s != [] {
      JoinSplit(s[1..], sep);
      var rest := Split(s[1..], sep);
      if s[0] == sep {
        assert Split(s, sep) == [[]] + rest;
        assert s == [sep] + s[1..];
      } else {
        var r := Split(s, sep);
        assert r[0] == [s[0]] + rest[0];
        assert r[1..] == rest[1..];
        if |rest| == 1 {
          assert s == [s[0]] + s[1..];
        } else {
          assert Join(rest, sep) == rest[0] + [sep] + Join(rest[1..], sep);
          assert s == [s[0]] + s[1..];
        }
      }
    }
  }

  /** Text without the separator splits into itself. */
  lemma {:induction false} SplitWithoutSep(s: string, sep: char)
    requires sep !in s
    ensures Split(s, sep) == [s]
  {
    if s != [] {
      SplitWithoutSep(s[1..], sep);
      assert [s[0]] + s[1..] == s;
    }
  }

  /** A separator-free first part followed by the separator comes off as one part. */
  lemma {:induction false} SplitAfterPart(a: string, sep: char, t: string)
    requires sep !in a
    ensures Split(a + [sep] + t, sep) == [a] + Split(t, sep)
  {
    var s := a + [sep] + t;
    if a == [] {
      assert s == [sep] + t;
      assert s[1..] == t;
    } else {
      SplitAfterPart(a[1..], sep, t);
      assert s[1..] == a[1..] + [sep] + t;
      assert [a[0]] + a[1..] == a;
    }
  }

  /** Joining separator-free parts and splitting again gives the parts back. */
  lemma {:induction false} SplitJoin(parts: seq<string>, sep: char)
    requires |parts| >= 1
    requires forall k :: 0 <= k < |parts| ==> sep !in parts[k]
    ensures Split(Join(parts, sep), sep) == parts
  {
    if |parts| == 1 {
      SplitWithoutSep(parts[0], sep);
    } else {
      SplitJoin(parts[1..], sep);
      SplitAfterPart(parts[0], sep, Join(parts[1..], sep));
      assert [parts[0]] + parts[1..] == parts;
    }
  }

  // ---------------------------------------------------------------------
  // Integer rendering and parsing
  // ---------------------------------------------------------------------

  function DigitChar(d: nat): char
    requires d < 16
  {
    if d < 10 then ('0' as int + d) as char else ('A' as int + d - 10) as char
  }

  function DigitValue(c: char): int {
    if '0' <= c <= '9' then c as int - '0' as int
    else if 'A' <= c <= 'F' then c as int - 'A' as int + 10
    else -1
  }

  /** The digits of `n` in base `b`, most significant first, without padding. */
  function Digits(n: nat, b: nat): (r: string)
    requires 2 <= b <= 16
    ensures |r| >= 1
    ensures forall i :: 0 <= i < |r| ==> 0 <= DigitValue(r[i]) < b
    decreases n
  {
    if n < b then
      DigitRoundTrip(n);
      [DigitChar(n)]
    else
      DivModIdentity(n, b);
      DigitRoundTrip(n % b);
      Digits(n / b, b) + [DigitChar(n % b)]
  }

  /** Reads a string of base-`b` digits back into a number. */
  function ParseDigits(s: string, b: nat): int
    requires 2 <= b <= 16
  {
    if s == [] then 0 else ParseDigits(s[..|s| - 1], b) * b + DigitValue(s[|s| - 1])
  }

  lemma {:induction false} DigitRoundTrip(d: nat)
    requires d < 16
    ensures DigitValue(DigitChar(d)) == d
  {
  }

  lemma {:induction false} ParseSnoc(s: string, c: char, b: nat)
    requires 2 <= b <= 16
    ensures ParseDigits(s + [c], b) == ParseDigits(s, b) * b + DigitValue(c)
  {
    assert (s + [c])[..|s|] == s;
  }

  lemma {:induction false} ParseDigitsOfDigits(n: nat, b: nat)
    requires 2 <= b <= 16
    ensures ParseDigits(Digits(n, b), b) == n
    decreases n
  {
    if n < b {
      DigitRoundTrip(n);
      assert Digits(n, b) == [DigitChar(n)];
      assert [DigitChar(n)][..0] == [];
    } else {
      var q, d := n / b, n % b;
      DivModIdentity(n, b);
      ParseDigitsOfDigits(q, b);
      var ds := Digits(q, b);
      calc {
        ParseDigits(Digits(n, b), b);
        ParseDigits(ds + [DigitChar(d)], b);
        { ParseSnoc(ds, DigitChar(d), b); }
        ParseDigits(ds, b) * b + DigitValue(DigitChar(d));
        { DigitRoundTrip(d); }
        q * b + d;
      }
    }
  }

  lemma {:induction false} DivModIdentity(n: nat, b: nat)
    requires 2 <= b <= 16
    ensures (n / b) * b + n % b == n
    ensures 0 <= n % b < b
    ensures n >= b ==> n / b < n
  {
  }

  lemma {:induction false} ParseZeros(z: nat, b: nat)
    requires 2 <= b <= 16
    ensures ParseDigits(Zeros(z), b) == 0
  {
    if z > 0 {
      assert Zeros(z)[..z - 1] == Zeros(z - 1);
      ParseZeros(z - 1, b);
      assert DigitValue('0') == 0;
    }
  }

  /** Leading zeros do not change the value read back. */
  lemma {:induction false} ParseDigitsLeadingZeros(z: nat, s: string, b: nat)
    requires 2 <= b <= 16
    ensures ParseDigits(Zeros(z) + s, b) == ParseDigits(s, b)
    decreases |s|
  {
    var t := Zeros(z) + s;
    if s == [] {
      assert t == Zeros(z);
      ParseZeros(z, b);
    } else {
      assert t[..|t| - 1] == Zeros(z) + s[..|s| - 1];
      ParseDigitsLeadingZeros(z, s[..|s| - 1], b);
    }
  }

  function Zeros(n: nat): (r: string)
    ensures |r| == n && forall i :: 0 <= i < n ==> r[i] == '0'
  {
    if n == 0 then [] else Zeros(n - 1) + ['0']
  }

  /** Python's `format(n, "0<w>d")` / `format(n, "0<w>X")` for a non-negative `n`. */
  function ZeroPad(n: nat, width: nat, b: nat): (r: string)
    requires 2 <= b <= 16
    ensures |r| >= width
  {
    var d := Digits(n, b);
    if |d| >= width then d else Zeros(width - |d|) + d
  }

  lemma {:induction false} ParseZeroPad(n: nat, width: nat, b: nat)
    requires 2 <= b <= 16
    ensures ParseDigits(ZeroPad(n, width, b), b) == n
  {
    var d := Digits(n, b);
    if |d| < width {
      calc {
        ParseDigits(ZeroPad(n, width, b), b);
        ParseDigits(Zeros(width - |d|) + d, b);
        { ParseDigitsLeadingZeros(width - |d|, d, b); }
        ParseDigits(d, b);
        { ParseDigitsOfDigits(n, b); }
        n;
      }
    } else {
      ParseDigitsOfDigits(n, b);
    }
  }

  /** `str(i)` for an `int`. */
  function IntToString(i: int): (r: string)
    ensures |r| >= 1
  {
    if i < 0 then "-" + Digits(-i, 10) else Digits(i, 10)
  }

  /** Python's `int(s)` for an optional minus sign followed by decimal digits. */
  function ParseInt(s: string): int {
    if s != [] && s[0] == '-' then -ParseDigits(s[1..], 10) else ParseDigits(s, 10)
  }

  lemma {:induction false} ParseIntToString(i: int)
    ensures ParseInt(IntToString(i)) == i
  {
    if i < 0 {
      ParseDigitsOfDigits(-i, 10);
      ParseIntNegative(Digits(-i, 10));
    } else {
      ParseDigitsOfDigits(i, 10);
      ParseIntUnsigned(Digits(i, 10));
    }
  }

  lemma {:induction false} ParseIntNegative(ds: string)
    ensures ParseInt("-" + ds) == -ParseDigits(ds, 10)
  {
    assert ("-" + ds)[1..] == ds;
  }

  lemma {:induction false} ParseIntUnsigned(ds: string)
    requires |ds| >= 1 && 0 <= DigitValue(ds[0])
    ensures ParseInt(ds) == ParseDigits(ds, 10)
  {
  }

  // ---------------------------------------------------------------------
  // Code-point order and sorted keys
  // ---------------------------------------------------------------------

  /** Python's `<` on two strings: lexicographic by code point. */
  predicate StrLt(a: string, b: string) {
    if a == [] then b != []
    else if b == [] then false
    else if a[0] != b[0] then a[0] < b[0]
    else StrLt(a[1..], b[1..])
  }

  lemma {:induction false} StrLtIrreflexive(a: string)
    ensures !StrLt(a, a)
  {
    if a != [] {
      StrLtIrreflexive(a[1..]);
    }
  }

  lemma {:induction false} StrLtTransitive(a: string, b: string, c: string)
    requires StrLt(a, b) && StrLt(b, c)
    ensures StrLt(a, c)
  {
    if a != [] && b != [] && c != [] && a[0] == b[0] && b[0] == c[0] {
      StrLtTransitive(a[1..], b[1..], c[1..]);
    }
  }

  lemma {:induction false} StrLtTotal(a: string, b: string)
    ensures a == b || StrLt(a, b) || StrLt(b, a)
  {
    if a != [] && b != [] && a[0] == b[0] {
      StrLtTotal(a[1..], b[1..]);
      if a[1..] == b[1..] {
        assert a == [a[0]] + a[1..] && b == [b[0]] + b[1..];
      }
    }
  }

  lemma {:induction false} StrLtAsymmetric(a: string, b: string)
    ensures !(StrLt(a, b) && StrLt(b, a))
  {
    if a != [] && b != [] && a[0] == b[0] {
      StrLtAsymmetric(a[1..], b[1..]);
    }
  }

  predicate IsLeast(s: set<string>, m: string) {
    m in s && forall x :: x in s ==> !StrLt(x, m)
  }

  lemma {:induction false} LeastExists(s: set<string>)
    requires s != {}
    ensures exists m :: IsLeast(s, m)
    decreases |s|
  {
    var x :| x in s;
    if s - {x} == {} {
      assert s == {x};
      StrLtIrreflexive(x);
      assert IsLeast(s, x);
    } else {
      LeastExists(s - {x});
      var m :| IsLeast(s - {x}, m);
      if StrLt(x, m) {
        forall y | y in s ensures !StrLt(y, x) {
          if y != x && StrLt(y, x) {
            StrLtTransitive(y, x, m);
          }
          StrLtIrreflexive(x);
        }
        assert IsLeast(s, x);
      } else {
        assert IsLeast(s, m);
      }
    }
  }

  lemma {:induction false} LeastUnique(s: set<string>)
    ensures forall m, n :: IsLeast(s, m) && IsLeast(s, n) ==> m == n
  {
    forall m, n | IsLeast(s, m) && IsLeast(s, n) ensures m == n {
      StrLtTotal(m, n);
    }
  }

  predicate StrictlySorted(r: seq<string>) {
    forall i, j :: 0 <= i < j < |r| ==> StrLt(r[i], r[j])
  }

  /** `sorted(keys)` for a set of distinct string keys. */
  function SortedKeys(s: set<string>): (r: seq<string>)
    ensures |r| == |s|
    ensures forall x :: x in r <==> x in s
    ensures StrictlySorted(r)
    decreases |s|
  {
    if s == {} then []
    else
      LeastExists(s);
      LeastUnique(s);
      var m :| IsLeast(s, m);
      var rest := SortedKeys(s - {m});
      LeastPrecedesRest(s, m, rest);
      [m] + rest
  }

  lemma {:induction false} LeastPrecedesRest(s: set<string>, m: string, rest: seq<string>)
    requires IsLeast(s, m)
    requires forall x :: x in rest <==> x in s - {m}
    ensures forall j :: 0 <= j < |rest| ==> StrLt(m, rest[j])
  {
    forall j | 0 <= j < |rest| ensures StrLt(m, rest[j]) {
      assert rest[j] in s - {m};
      StrLtTotal(m, rest[j]);
    }
  }
}
