/** Byte-wise text order, fixed-width decimal digits and path segments, shared by the modules that
    reason about SQLite's text comparison, Go's sorted string lists and remote paths. */
module Text {

  /** SQLite's BINARY collation and Go's string `<`: the first differing byte decides, and a proper
      prefix comes first. */
  predicate LexLess(a: string, b: string) {
    |b| > 0 && (|a| == 0 || a[0] < b[0] || (a[0] == b[0] && LexLess(a[1..], b[1..])))
  }

  predicate LexLe(a: string, b: string) {
    a == b || LexLess(a, b)
  }

  /** The position of the first difference decides the order. */
  lemma {:induction false} LexAt(a: string, b: string, i: nat)
    requires i <= |a| && i < |b| && a[..i] == b[..i]
    requires i == |a| || a[i] < b[i]
    ensures LexLess(a, b)
    decreases i
  {
    if i > 0 {
      assert a[0] == a[..i][0] == b[..i][0] == b[0];
      assert a[1..][..i-1] == a[..i][1..] == b[..i][1..] == b[1..][..i-1];
      LexAt(a[1..], b[1..], i - 1);
    }
  }

  lemma {:induction false} LexAsymmetric(a: string, b: string)
    requires LexLess(a, b)
    ensures !LexLess(b, a)
  {
    if |a| > 0 && a[0] == b[0] {
      LexAsymmetric(a[1..], b[1..]);
    }
  }

  lemma {:induction false} LexTotal(a: string, b: string)
    ensures LexLess(a, b) || a == b || LexLess(b, a)
  {
    if |a| > 0 && |b| > 0 && a[0] == b[0] {
      LexTotal(a[1..], b[1..]);
      assert a == [a[0]] + a[1..] && b == [b[0]] + b[1..];
    }
  }

  lemma {:induction false} LexTransitive(a: string, b: string, c: string)
    requires LexLess(a, b) && LexLess(b, c)
    ensures LexLess(a, c)
  {
    if |a| > 0 && a[0] == b[0] == c[0] {
      LexTransitive(a[1..], b[1..], c[1..]);
    }
  }

  lemma LexIrreflexive(a: string)
    ensures !LexLess(a, a)
  {
    if LexLess(a, a) {
      LexAsymmetric(a, a);
    }
  }

  /** Fields of equal width compare first, whatever follows them. */
  lemma {:induction false} LexAppend(a: string, b: string, c: string, d: string)
    requires |a| == |b|
    ensures LexLess(a + c, b + d) <==> LexLess(a, b) || (a == b && LexLess(c, d))
  {
    if |a| == 0 {
      assert a + c == c && b + d == d;
    } else {
      assert (a + c)[0] == a[0] && (b + d)[0] == b[0];
      assert (a + c)[1..] == a[1..] + c && (b + d)[1..] == b[1..] + d;
      LexAppend(a[1..], b[1..], c, d);
      assert a == b <==> a[0] == b[0] && a[1..] == b[1..] by {
        assert a == [a[0]] + a[1..] && b == [b[0]] + b[1..];
      }
    }
  }

  function Pow10(w: nat): (p: nat)
    ensures p > 0
  {
    if w == 0 then 1 else 10 * Pow10(w - 1)
  }

  function Digit(d: nat): (c: char)
    requires d < 10
    ensures '0' <= c <= '9' && c as int == '0' as int + d
  {
    '0' + d as char
  }

  /** `n` in decimal, padded with zeros to `w` places. */
  function Digits(n: nat, w: nat): (s: string)
    ensures |s| == w
    ensures forall i :: 0 <= i < w ==> '0' <= s[i] <= '9'
    decreases w
  {
    if w == 0 then "" else Digits(n / 10, w - 1) + [Digit(n % 10)]
  }

  /** Zero-padded decimal text sorts as the numbers do. */
  lemma {:induction false} DigitsOrder(n: nat, m: nat, w: nat)
    requires n < Pow10(w) && m < Pow10(w)
    ensures LexLess(Digits(n, w), Digits(m, w)) <==> n < m
    ensures Digits(n, w) == Digits(m, w) <==> n == m
    decreases w
  {
    if w > 0 {
      DigitsOrder(n / 10, m / 10, w - 1);
      var a, b := Digits(n / 10, w - 1), Digits(m / 10, w - 1);
      var x, y := [Digit(n % 10)], [Digit(m % 10)];
      LexAppend(a, b, x, y);
      assert LexLess(x, y) <==> n % 10 < m % 10;
      if a + x == b + y {
        assert (a + x)[..w-1] == a && (b + y)[..w-1] == b;
        assert (a + x)[w-1] == x[0] && (b + y)[w-1] == y[0];
      }
    }
  }

  /** Go's strconv.Itoa on a natural number. */
  function Decimal(n: nat): (s: string)
    ensures |s| > 0
    ensures forall i :: 0 <= i < |s| ==> '0' <= s[i] <= '9'
  {
    if n < 10 then [Digit(n)] else Decimal(n / 10) + [Digit(n % 10)]
  }

  lemma {:induction false} DecimalInjective(n: nat, m: nat)
    requires Decimal(n) == Decimal(m)
    ensures n == m
  {
    var s, t := Decimal(n), Decimal(m);
    if n >= 10 && m >= 10 {
      assert s[..|s|-1] == Decimal(n / 10) && t[..|t|-1] == Decimal(m / 10);
      DecimalInjective(n / 10, m / 10);
      assert s[|s|-1] == Digit(n % 10) && t[|t|-1] == Digit(m % 10);
    }
  }

  /** Segments joined by a separator character. */
  function JoinChar(parts: seq<string>, sep: char): string {
    if |parts| == 0 then "" else if |parts| == 1 then parts[0] else parts[0] + [sep] + JoinChar(parts[1..], sep)
  }

  /** Position of the first separator, or the length when there is none. */
  function IndexOf(s: string, c: char): (i: nat)
    ensures i <= |s| && c !in s[..i]
    ensures i < |s| ==> s[i] == c
  {
    if |s| == 0 || s[0] == c then 0
    else
      var i := IndexOf(s[1..], c) + 1;
      assert s[..i] == [s[0]] + s[1..][..i-1];
      i
  }

  /** Go's strings.Split for a one-character separator. */
  function SplitChar(s: string, sep: char): (parts: seq<string>)
    ensures |parts| > 0
    decreases |s|
  {
    var i := IndexOf(s, sep);
    if i == |s| then [s] else [s[..i]] + SplitChar(s[i+1..], sep)
  }

  lemma IndexOfUnique(a: string, b: string, c: char)
    requires c !in a
    ensures IndexOf(a + [c] + b, c) == |a|
  {
    var s := a + [c] + b;
    var i := IndexOf(s, c);
    assert s[|a|] == c && s[..|a|] == a;
    assert forall j :: 0 <= j < i ==> s[j] in s[..i];
  }

  /** Splitting undoes joining when no part holds the separator. */
  lemma {:induction false} SplitJoin(parts: seq<string>, sep: char)
    requires |parts| > 0
    requires forall p :: p in parts ==> sep !in p
    ensures SplitChar(JoinChar(parts, sep), sep) == parts
  {
    var s := JoinChar(parts, sep);
    if |parts| == 1 {
      assert s == parts[0] && sep !in s;
    } else {
      var rest := JoinChar(parts[1..], sep);
      IndexOfUnique(parts[0], rest, sep);
      assert s[..|parts[0]|] == parts[0] && s[|parts[0]|+1..] == rest;
      SplitJoin(parts[1..], sep);
    }
  }

  /** The length of the part before the last separator; the whole length when there is none. */
  function LastIndexOf(s: string, c: char): (i: nat)
    ensures i <= |s| && (i < |s| ==> s[i] == c)
  {
    if |s| == 0 then 0
    else if s[|s|-1] == c then |s| - 1
    else
      var i := LastIndexOf(s[..|s|-1], c);
      if i == |s| - 1 then |s| else i
  }

  lemma {:induction false} LastIndexOfJoined(dir: string, name: string, c: char)
    requires c !in name
    ensures LastIndexOf(dir + [c] + name, c) == |dir|
  {
    var s := dir + [c] + name;
    if |name| == 0 {
      assert s[|s|-1] == c;
    } else {
      assert s[|s|-1] == name[|name|-1] && s[..|s|-1] == dir + [c] + name[..|name|-1];
      LastIndexOfJoined(dir, name[..|name|-1], c);
    }
  }
}
