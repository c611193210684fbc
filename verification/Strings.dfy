/**
  The string operations of Go's standard library that the repository leans on:
  cutset trims, splitting and joining on a separator, and the string order.
  Strings are sequences of characters; on valid UTF-8 text Go's byte order is
  the order of code points used here.
*/
module Strings {

  type Bytes = seq<bv8>

  datatype Option<+T> = None | Some(value: T)

  // ---------- cutset trims ----------

  /** `strings.TrimLeft`: drops leading characters as long as they are in `cutset`. */
  function TrimLeft(s: string, cutset: string): string {
    if s != [] && s[0] in cutset then TrimLeft(s[1..], cutset) else s
  }

  /** `strings.TrimRight`: drops trailing characters as long as they are in `cutset`. */
  function TrimRight(s: string, cutset: string): string {
    if s != [] && s[|s| - 1] in cutset then TrimRight(s[..|s| - 1], cutset) else s
  }

  /** A left trim runs through a prefix drawn from the cutset and goes on behind it. */
  lemma {:induction false} TrimLeftThrough(p: string, s: string, cutset: string)
    requires forall c | c in p :: c in cutset
    ensures TrimLeft(p + s, cutset) == TrimLeft(s, cutset)
  {
    if p == [] {
      assert p + s == s;
    } else {
      assert (p + s)[1..] == p[1..] + s;
      TrimLeftThrough(p[1..], s, cutset);
    }
  }

  /** A right trim runs through a suffix drawn from the cutset and goes on before it. */
  lemma {:induction false} TrimRightThrough(s: string, p: string, cutset: string)
    requires forall c | c in p :: c in cutset
    ensures TrimRight(s + p, cutset) == TrimRight(s, cutset)
  {
    if p == [] {
      assert s + p == s;
    } else {
      var q := p[..|p| - 1];
      assert (s + p)[..|s + p| - 1] == s + q;
      TrimRightThrough(s, q, cutset);
    }
  }

  /** A right trim takes exactly the longest tail drawn from the cutset. */
  lemma TrimRightExactly(s: string, p: string, cutset: string)
    requires (forall c | c in p :: c in cutset) && (s == "" || s[|s| - 1] !in cutset)
    ensures TrimRight(s + p, cutset) == s
  {
    TrimRightThrough(s, p, cutset);
  }

  /** What a left trim leaves is a suffix; what it took is drawn from the cutset. */
  lemma {:induction false} TrimLeftSuffix(s: string, cutset: string) returns (k: nat)
    ensures k <= |s| && TrimLeft(s, cutset) == s[k..]
    ensures forall i | 0 <= i < k :: s[i] in cutset
    ensures k < |s| ==> s[k] !in cutset
  {
    if s != [] && s[0] in cutset {
      var j := TrimLeftSuffix(s[1..], cutset);
      k := j + 1;
      assert s[1..][j..] == s[k..];
      forall i | 0 <= i < k ensures s[i] in cutset {
        if i > 0 { assert s[1..][i - 1] in cutset; }
      }
    } else {
      k := 0;
    }
  }

  // ---------- splitting and joining ----------

  /** `strings.Split` on a one-character separator. */
  function Split(s: string, sep: char): (parts: seq<string>)
    ensures |parts| >= 1
  {
    if s == [] then [[]]
    else
      var rest := Split(s[1..], sep);
      if s[0] == sep then [[]] + rest
      else [[s[0]] + rest[0]] + rest[1..]
  }

  /** `strings.Join`. */
  function Join(parts: seq<string>, sep: string): string {
    if parts == [] then []
    else if |parts| == 1 then parts[0]
    else parts[0] + sep + Join(parts[1..], sep)
  }

  /** Without the separator there is one part: the whole text. */
  lemma {:induction false} SplitNone(s: string, sep: char)
    requires sep !in s
    ensures Split(s, sep) == [s]
  {
    if s != [] {
      SplitNone(s[1..], sep);
      assert [s[0]] + s[1..] == s;
    }
  }

  /** A text in front of the first separator becomes the first part. */
  lemma {:induction false} SplitFirst(a: string, b: string, sep: char)
    requires sep !in a
    ensures Split(a + [sep] + b, sep) == [a] + Split(b, sep)
  {
    var s := a + [sep] + b;
    if a == [] {
      assert s[1..] == b;
    } else {
      assert s[1..] == a[1..] + [sep] + b;
      SplitFirst(a[1..], b, sep);
      assert [s[0]] + a[1..] == a;
    }
  }

  /** No part of a split holds the separator. */
  lemma {:induction false} SplitClean(s: string, sep: char)
    ensures forall p | p in Split(s, sep) :: sep !in p
  {
    if s != [] {
      SplitClean(s[1..], sep);
      var rest := Split(s[1..], sep);
      assert sep !in rest[0];
      forall p | p in Split(s, sep) ensures sep !in p {
        if s[0] == sep { assert p == [] || p in rest; }
        else { assert p == [s[0]] + rest[0] || p in rest[1..]; }
      }
    }
  }

  /** Splitting undoes joining when no part holds the separator. */
  lemma {:induction false} SplitJoin(parts: seq<string>, sep: char)
    requires parts != []
    requires forall p | p in parts :: sep !in p
    ensures Split(Join(parts, [sep]), sep) == parts
  {
    assert parts[0] in parts;
    if |parts| == 1 {
      SplitNone(parts[0], sep);
    } else {
      assert forall p | p in parts[1..] :: p in parts;
      SplitJoin(parts[1..], sep);
      SplitFirst(parts[0], Join(parts[1..], [sep]), sep);
      assert parts == [parts[0]] + parts[1..];
    }
  }

  /** Joining undoes splitting. */
  lemma {:induction false} JoinSplit(s: string, sep: char)
    ensures Join(Split(s, sep), [sep]) == s
  {
    if s != [] {
      JoinSplit(s[1..], sep);
      var rest := Split(s[1..], sep);
      assert s == [s[0]] + s[1..];
      if s[0] == sep {
        assert ([[]] + rest)[1..] == rest;
      } else {
        var parts := [[s[0]] + rest[0]] + rest[1..];
        assert parts[1..] == rest[1..];
        if |rest| == 1 { assert s[1..] == rest[0]; }
      }
    }
  }

  /** A text ends with at most one separator-free tail behind a given separator. */
  lemma LastSeparator(a: string, b: string, c: string, d: string, sep: char)
    requires a + [sep] + b == c + [sep] + d
    requires sep !in b && sep !in d
    ensures a == c && b == d
  {
    var s, t := a + [sep] + b, c + [sep] + d;
    assert s[|a|] == sep && s[|c|] == sep;
    assert forall i | |a| < i < |s| :: s[i] == b[i - |a| - 1];
    assert forall i | |c| < i < |s| :: s[i] == d[i - |c| - 1];
    assert a == s[..|a|] && c == t[..|c|];
    assert b == s[|a| + 1..] && d == t[|c| + 1..];
  }

  // ---------- string order ----------

  /** Go's `<=` on strings. */
  predicate Leq(a: string, b: string) {
    a == [] || (b != [] && (a[0] < b[0] || (a[0] == b[0] && Leq(a[1..], b[1..]))))
  }

  lemma {:induction false} LeqTotal(a: string, b: string)
    ensures Leq(a, b) || Leq(b, a)
  {
    if a != [] && b != [] && a[0] == b[0] { LeqTotal(a[1..], b[1..]); }
  }

  lemma {:induction false} LeqAntisymmetric(a: string, b: string)
    requires Leq(a, b) && Leq(b, a)
    ensures a == b
  {
    if a != [] {
      LeqAntisymmetric(a[1..], b[1..]);
      assert a == [a[0]] + a[1..] && b == [b[0]] + b[1..];
    }
  }

  lemma {:induction false} LeqTransitive(a: string, b: string, c: string)
    requires Leq(a, b) && Leq(b, c)
    ensures Leq(a, c)
  {
    if a != [] && a[0] == b[0] == c[0] { LeqTransitive(a[1..], b[1..], c[1..]); }
  }

  /** Behind prefixes of one length the order is decided by the prefixes first. */
  lemma {:induction false} LeqConcat(a: string, x: string, b: string, y: string)
    requires |a| == |b|
    ensures Leq(a + x, b + y) <==> if a == b then Leq(x, y) else Leq(a, b)
  {
    if a == [] {
      assert a + x == x && b + y == y;
    } else {
      assert (a + x)[1..] == a[1..] + x && (b + y)[1..] == b[1..] + y;
      LeqConcat(a[1..], x, b[1..], y);
      assert a == [a[0]] + a[1..] && b == [b[0]] + b[1..];
    }
  }

  /** The first different character decides, and a beginning comes before the whole. */
  lemma {:induction false} LeqDecided(p: string, a: char, x: string, b: char, y: string)
    requires a < b
    ensures Leq(p + [a] + x, p + [b] + y) && !Leq(p + [b] + y, p + [a] + x)
    ensures Leq(p, p + x) && (Leq(p + x, p) ==> x == "")
  {
    if p != [] {
      LeqDecided(p[1..], a, x, b, y);
      assert (p + [a] + x)[1..] == p[1..] + [a] + x && (p + [b] + y)[1..] == p[1..] + [b] + y;
      assert (p + x)[1..] == p[1..] + x;
    }
  }

  /** Every non-empty finite set of strings has a first one. */
  lemma LeastExists(files: set<string>) returns (f: string)
    requires files != {}
    ensures f in files && forall g | g in files :: Leq(f, g)
  {
    var h :| h in files;
    if files == {h} {
      LeqTotal(h, h);
      f := h;
    } else {
      var e := LeastExists(files - {h});
      LeqTotal(e, h);
      f := if Leq(e, h) then e else h;
      forall g | g in files ensures Leq(f, g) {
        LeqTotal(g, g);
        if g != h && f == h { LeqTransitive(h, e, g); }
      }
    }
  }

  /** The first of a set of strings, which is what sorting and taking index 0 yields. */
  ghost function Least(files: set<string>): (f: string)
    requires files != {}
    ensures f in files && forall g | g in files :: Leq(f, g)
  {
    assert exists f :: f in files && forall g | g in files :: Leq(f, g) by {
      var f := LeastExists(files);
    }
    var f :| f in files && forall g | g in files :: Leq(f, g);
    f
  }

  lemma LeastUnique(files: set<string>, f: string)
    requires f in files && forall g | g in files :: Leq(f, g)
    ensures files != {} && Least(files) == f
  {
    LeqAntisymmetric(f, Least(files));
  }

  // ---------- numbers and counts ----------

  /** The number that a digit string denotes. */
  function Value(s: string): nat {
    if s == "" then 0
    else
      var c := s[|s| - 1];
      10 * Value(s[..|s| - 1]) + if '0' <= c <= '9' then c as nat - '0' as nat else 0
  }

  function Digit(d: nat): char
    requires d < 10
  {
    (d + '0' as nat) as char
  }

  /** `%d` of a natural number. */
  function Natural(n: nat): (s: string)
    ensures s != "" && forall c | c in s :: '0' <= c <= '9'
  {
    if n < 10 then [Digit(n)] else Natural(n / 10) + [Digit(n % 10)]
  }

  lemma {:induction false} NaturalReadsBack(n: nat)
    ensures Value(Natural(n)) == n
  {
    if n >= 10 {
      NaturalReadsBack(n / 10);
      var s := Natural(n);
      assert s[..|s| - 1] == Natural(n / 10);
    } else {
      assert [Digit(n)][..0] == "";
    }
  }

  /** `n` in decimal behind any number of zeros. */
  ghost predicate Decimals(s: string, n: nat) {
    exists z: nat :: z <= |s| && s[z..] == Natural(n) && forall c | c in s[..z] :: c == '0'
  }

  lemma {:induction false} ZerosBehindNothing(s: string, z: nat)
    requires z <= |s| && forall c | c in s[..z] :: c == '0'
    ensures Value(s) == Value(s[z..])
    decreases |s|
  {
    if |s| > z {
      var f := s[..|s| - 1];
      assert f[..z] == s[..z] && f[z..] == s[z..][..|s| - z - 1];
      ZerosBehindNothing(f, z);
    } else if s != "" {
      var f := s[..|s| - 1];
      assert s[..z] == s && f[..z - 1] == f && s[|s| - 1] in s;
      assert forall c | c in f :: c in s;
      ZerosBehindNothing(f, z - 1);
      assert f[z - 1..] == "";
    }
  }

  /** One more digit. */
  lemma OneMoreDigit(f: string, n: nat, d: nat)
    requires Decimals(f, n) && d < 10
    ensures Decimals(f + [Digit(d)], 10 * n + d)
  {
    var z: nat :| z <= |f| && f[z..] == Natural(n) && forall x | x in f[..z] :: x == '0';
    var s := f + [Digit(d)];
    if n == 0 {
      hide Value;
      assert f == f[..z] + f[z..] && f[z..] == "0";
      assert s[..|f|] == f && s[|f|..] == [Digit(d)] == Natural(d);
    } else {
      assert Natural(10 * n + d) == Natural(n) + [Digit(d)];
      assert s[z..] == f[z..] + [Digit(d)] && s[..z] == f[..z];
    }
  }

  /** A text of digits denotes one number, which is its value. */
  lemma {:induction false} DigitsDenoteTheirValue(s: string)
    requires s != "" && forall c | c in s :: '0' <= c <= '9'
    ensures Decimals(s, Value(s))
  {
    var f, c := s[..|s| - 1], s[|s| - 1];
    assert c in s && forall x | x in f :: x in s;
    var d := c as nat - '0' as nat;
    if f == "" {
      assert Value(s) == d && s[0..] == [Digit(d)] == Natural(d);
    } else {
      hide Decimals;
      DigitsDenoteTheirValue(f);
      OneMoreDigit(f, Value(f), d);
      assert s == f + [Digit(d)];
    }
  }

  lemma DecimalsAreDigits(s: string, n: nat)
    requires Decimals(s, n)
    ensures s != "" && (forall c | c in s :: '0' <= c <= '9') && Value(s) == n
  {
    var z: nat :| z <= |s| && s[z..] == Natural(n) && forall c | c in s[..z] :: c == '0';
    assert s == s[..z] + s[z..];
    ZerosBehindNothing(s, z);
    NaturalReadsBack(n);
  }

  /** How often `c` occurs in `s`. */
  function Count(s: string, c: char): nat {
    if s == [] then 0 else (if s[0] == c then 1 else 0) + Count(s[1..], c)
  }

  lemma {:induction false} CountConcat(a: string, b: string, c: char)
    ensures Count(a + b, c) == Count(a, c) + Count(b, c)
  {
    if a == [] {
      assert a + b == b;
    } else {
      assert (a + b)[1..] == a[1..] + b;
      CountConcat(a[1..], b, c);
    }
  }
}
