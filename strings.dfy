/** Character classes, separator joins, occurrence counts and decimal
    rendering shared by the value generators and the statement builder. */
module Strings {

  /** The alphabet `get_text` draws its characters from: the lower-case
      letters, the upper-case letters and the digits, in that order. */
  const CHARSET: string := Lower() + Upper() + Digits()

  predicate IsAlnum(c: char) {
    ('a' <= c <= 'z') || ('A' <= c <= 'Z') || ('0' <= c <= '9')
  }

  predicate IsDigit(c: char) {
    '0' <= c <= '9'
  }

  predicate AllDigits(s: string) {
    forall i :: 0 <= i < |s| ==> IsDigit(s[i])
  }

  /** Every character of `s` is one `get_text` can draw: by
      `CharsetIsAlphanumeric`, an ASCII letter or digit. */
  predicate FromCharset(s: string) {
    forall i :: 0 <= i < |s| ==> IsAlnum(s[i])
  }

  /** No character of `s` is in `bad`. */
  predicate Avoids(s: string, bad: set<char>) {
    forall i :: 0 <= i < |s| ==> s[i] !in bad
  }

  /** The letters and digits, each as the run of consecutive code points it is. */
  function Lower(): (r: string)
    ensures |r| == 26
  {
    seq(26, i requires 0 <= i < 26 => (('a' as int) + i) as char)
  }

  function Upper(): (r: string)
    ensures |r| == 26
  {
    seq(26, i requires 0 <= i < 26 => (('A' as int) + i) as char)
  }

  function Digits(): (r: string)
    ensures |r| == 10
  {
    seq(10, i requires 0 <= i < 10 => (('0' as int) + i) as char)
  }

  /** The alphabet spelled out as one literal, as the source writes it. */
  lemma CharsetIsSourceLiteral()
    ensures CHARSET == "abcdefghijklmnopqrstuvwxyzABCDEFGHIJKLMNOPQRSTUVWXYZ0123456789"
  {
    LowerIsLiteral();
    UpperIsLiteral();
    DigitsIsLiteral();
  }

  lemma LowerIsLiteral()
    ensures Lower() == "abcdefghijklmnopqrstuvwxyz"
  {
    var l := "abcdefghijklmnopqrstuvwxyz";
    assert forall i :: 0 <= i < 26 ==> Lower()[i] == l[i];
  }

  lemma UpperIsLiteral()
    ensures Upper() == "ABCDEFGHIJKLMNOPQRSTUVWXYZ"
  {
    var l := "ABCDEFGHIJKLMNOPQRSTUVWXYZ";
    assert forall i :: 0 <= i < 26 ==> Upper()[i] == l[i];
  }

  lemma DigitsIsLiteral()
    ensures Digits() == "0123456789"
  {
    var l := "0123456789";
    assert forall i :: 0 <= i < 10 ==> Digits()[i] == l[i];
  }

  /** Position `i` of the alphabet holds an ASCII letter or digit. */
  lemma CharsetAt(i: int)
    requires 0 <= i < 62
    ensures IsAlnum(CHARSET[i])
  {
    if i < 26 {
      assert CHARSET[i] == Lower()[i];
    } else if i < 52 {
      assert CHARSET[i] == Upper()[i - 26];
    } else {
      assert CHARSET[i] == Digits()[i - 52];
    }
  }

  /** Where each ASCII letter or digit sits in the alphabet. */
  lemma CharsetIndex(c: char)
    requires IsAlnum(c)
    ensures c in CHARSET
  {
    if 'a' <= c <= 'z' {
      var i := (c as int) - ('a' as int);
      assert CHARSET[i] == Lower()[i] == c;
    } else if 'A' <= c <= 'Z' {
      var i := (c as int) - ('A' as int);
      assert CHARSET[26 + i] == Upper()[i] == c;
    } else {
      var i := (c as int) - ('0' as int);
      assert CHARSET[52 + i] == Digits()[i] == c;
    }
  }

  /** The alphabet is exactly the 62 ASCII letters and digits. */
  lemma CharsetIsAlphanumeric()
    ensures |CHARSET| == 62
    ensures forall c :: c in CHARSET <==> IsAlnum(c)
  {
    forall c
      ensures c in CHARSET <==> IsAlnum(c)
    {
      if c in CHARSET {
        var i :| 0 <= i < 62 && CHARSET[i] == c;
        CharsetAt(i);
      }
      if IsAlnum(c) {
        CharsetIndex(c);
      }
    }
  }

  /** Characters drawn from the alphabet are never SQL or JSON punctuation. */
  lemma CharsetAvoids(s: string, bad: set<char>)
    requires FromCharset(s)
    requires forall c :: c in bad ==> !IsAlnum(c)
    ensures Avoids(s, bad)
  {
  }

  // ---------------------------------------------------------------------------
  // Joining with a separator

  /** Every element followed by `sep`: what a loop that pushes an element and
      then a separator builds. */
  function Terminated(xs: seq<string>, sep: char): string
  {
    if xs == [] then "" else Terminated(xs[..|xs| - 1], sep) + xs[|xs| - 1] + [sep]
  }

  /** The elements with `sep` between neighbours and none at the end. */
  function Join(xs: seq<string>, sep: char): string
  {
    if xs == [] then "" else Terminated(xs[..|xs| - 1], sep) + xs[|xs| - 1]
  }

  /** Appending one more element to a loop's output. */
  lemma SnocUnfolds(xs: seq<string>, x: string, sep: char)
    ensures Terminated(xs + [x], sep) == Terminated(xs, sep) + x + [sep]
    ensures Join(xs + [x], sep) == Terminated(xs, sep) + x
  {
    assert (xs + [x])[..|xs|] == xs;
  }

  /** `SnocUnfolds` behind a fixed prefix, as a loop that appends to a buffer uses it. */
  lemma SnocAfter(head: string, xs: seq<string>, x: string, sep: char)
    ensures head + Terminated(xs, sep) + x + [sep] == head + Terminated(xs + [x], sep)
    ensures head + Terminated(xs, sep) + x == head + Join(xs + [x], sep)
  {
    SnocUnfolds(xs, x, sep);
  }

  lemma {:induction false} TerminatedCons(x: string, xs: seq<string>, sep: char)
    ensures Terminated([x] + xs, sep) == x + [sep] + Terminated(xs, sep)
    decreases |xs|
  {
    if xs == [] {
      assert ([x] + xs)[..0] == [];
    } else {
      var ys := [x] + xs;
      assert ys[..|ys| - 1] == [x] + xs[..|xs| - 1];
      TerminatedCons(x, xs[..|xs| - 1], sep);
    }
  }

  /** Reading a join from the left: the first element, the separator, the rest. */
  lemma JoinCons(x: string, xs: seq<string>, sep: char)
    requires xs != []
    ensures Join([x] + xs, sep) == x + [sep] + Join(xs, sep)
  {
    var ys, init, last := [x] + xs, xs[..|xs| - 1], xs[|xs| - 1];
    var head, t := x + [sep], Terminated(xs[..|xs| - 1], sep);
    assert ys[..|ys| - 1] == [x] + init;
    assert Join(ys, sep) == Terminated([x] + init, sep) + last;
    TerminatedCons(x, init, sep);
    assert Join(xs, sep) == t + last;
    assert (head + t) + last == head + (t + last);
  }

  lemma {:induction false} AvoidsTerminated(xs: seq<string>, sep: char, bad: set<char>)
    requires sep !in bad
    requires forall i :: 0 <= i < |xs| ==> Avoids(xs[i], bad)
    ensures Avoids(Terminated(xs, sep), bad)
    decreases |xs|
  {
    if xs != [] {
      AvoidsTerminated(xs[..|xs| - 1], sep, bad);
    }
  }

  /** A join of punctuation-free parts with a harmless separator is punctuation-free. */
  lemma AvoidsJoin(xs: seq<string>, sep: char, bad: set<char>)
    requires sep !in bad
    requires forall i :: 0 <= i < |xs| ==> Avoids(xs[i], bad)
    ensures Avoids(Join(xs, sep), bad)
  {
    if xs != [] {
      AvoidsTerminated(xs[..|xs| - 1], sep, bad);
    }
  }

  // ---------------------------------------------------------------------------
  // Counting occurrences

  function Count(s: string, c: char): nat
  {
    if s == [] then 0 else (if s[0] == c then 1 else 0) + Count(s[1..], c)
  }

  lemma {:induction false} CountAppend(a: string, b: string, c: char)
    ensures Count(a + b, c) == Count(a, c) + Count(b, c)
    decreases |a|
  {
    if a == [] {
      assert a + b == b;
    } else {
      assert (a + b)[1..] == a[1..] + b;
      CountAppend(a[1..], b, c);
    }
  }

  lemma {:induction false} CountAvoided(s: string, c: char)
    requires Avoids(s, {c})
    ensures Count(s, c) == 0
    decreases |s|
  {
    if s != [] {
      assert Avoids(s[1..], {c});
      CountAvoided(s[1..], c);
    }
  }

  /** The sum of the occurrence counts of the elements. */
  function SumCounts(xs: seq<string>, c: char): nat
  {
    if xs == [] then 0 else SumCounts(xs[..|xs| - 1], c) + Count(xs[|xs| - 1], c)
  }

  lemma {:induction false} CountTerminated(xs: seq<string>, sep: char, c: char)
    requires sep != c
    ensures Count(Terminated(xs, sep), c) == SumCounts(xs, c)
    decreases |xs|
  {
    if xs != [] {
      var init, last := xs[..|xs| - 1], xs[|xs| - 1];
      CountTerminated(init, sep, c);
      CountAppend(Terminated(init, sep) + last, [sep], c);
      CountAppend(Terminated(init, sep), last, c);
    }
  }

  /** Occurrences in a join are the occurrences in its parts, whenever the
      separator is not the character counted. */
  lemma CountJoin(xs: seq<string>, sep: char, c: char)
    requires sep != c
    ensures Count(Join(xs, sep), c) == SumCounts(xs, c)
  {
    if xs != [] {
      var init, last := xs[..|xs| - 1], xs[|xs| - 1];
      CountTerminated(init, sep, c);
      CountAppend(Terminated(init, sep), last, c);
    }
  }

  lemma {:induction false} SumCountsUniform(xs: seq<string>, c: char, k: nat)
    requires forall i :: 0 <= i < |xs| ==> Count(xs[i], c) == k
    ensures SumCounts(xs, c) == k * |xs|
    decreases |xs|
  {
    if xs != [] {
      SumCountsUniform(xs[..|xs| - 1], c, k);
    }
  }

  // ---------------------------------------------------------------------------
  // Decimal rendering (Rust's `to_string` on an unsigned integer)

  function DigitChar(d: nat): (c: char)
    requires d < 10
    ensures IsDigit(c)
  {
    (('0' as int) + d) as char
  }

  function DigitValue(c: char): (d: nat)
    requires IsDigit(c)
    ensures d < 10
  {
    (c as int) - ('0' as int)
  }

  /** The decimal text of `n`: digits only, no sign, no leading zero. */
  function DecimalText(n: nat): (r: string)
    ensures |r| >= 1 && AllDigits(r)
    ensures (r[0] == '0') == (n == 0)
    ensures (n == 0) == (r == "0")
  {
    if n < 10 then [DigitChar(n)] else DecimalText(n / 10) + [DigitChar(n % 10)]
  }

  /** The number a string of digits denotes. */
  function DecimalValue(s: string): nat
    requires AllDigits(s)
  {
    if s == [] then 0 else 10 * DecimalValue(s[..|s| - 1]) + DigitValue(s[|s| - 1])
  }

  /** Reading the decimal text back gives the number. */
  lemma {:induction false} DecimalRoundTrip(n: nat)
    ensures DecimalValue(DecimalText(n)) == n
  {
    if n >= 10 {
      var r := DecimalText(n);
      assert r[..|r| - 1] == DecimalText(n / 10);
      DecimalRoundTrip(n / 10);
    }
  }

  /** Below 1000 the decimal text has at most three digits. */
  lemma DecimalTextBelow1000(n: nat)
    requires n < 1000
    ensures |DecimalText(n)| <= 3
  {
    if n >= 10 {
      if n >= 100 {
        assert |DecimalText(n / 100)| == 1;
      }
    }
  }
}
