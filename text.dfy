/** Text utilities the server relies on: Python's `str.split(sep)` with an
    explicit one-character separator, its inverse `Join`, and the decimal
    rendering of natural numbers used in status lines and JSON bodies. */
module Text {

  /** Number of occurrences of `c` in `s`. */
  function Count(s: string, c: char): (n: nat)
    ensures n <= |s|
  {
    if |s| == 0 then 0
    else (if s[0] == c then 1 else 0) + Count(s[1..], c)
  }

  lemma {:induction false} CountZero(s: string, c: char)
    ensures Count(s, c) == 0 <==> c !in s
  {
    if |s| > 0 {
      CountZero(s[1..], c);
      assert s == [s[0]] + s[1..];
    }
  }

  /** `s.split(sep)` as Python defines it for an explicit separator: every
      occurrence of `sep` ends a token, so two adjacent separators give an
      empty token and the empty string gives the single token "". */
  function Split(s: string, sep: char): (r: seq<string>)
    ensures |r| == Count(s, sep) + 1
  {
    if |s| == 0 then [""]
    else
      var rest := Split(s[1..], sep);
      if s[0] == sep then [""] + rest
      else [[s[0]] + rest[0]] + rest[1..]
  }

  /** No token contains the separator. */
  lemma {:induction false} SplitTokensFree(s: string, sep: char)
    ensures forall i :: 0 <= i < |Split(s, sep)| ==> sep !in Split(s, sep)[i]
  {
    if |s| > 0 {
      SplitTokensFree(s[1..], sep);
    }
  }

  /** `sep.join(ts)`. */
  function Join(ts: seq<string>, sep: char): string
    requires |ts| > 0
  {
    if |ts| == 1 then ts[0] else ts[0] + [sep] + Join(ts[1..], sep)
  }

  /** Splitting and joining again gives back the original text. */
  lemma {:induction false} JoinSplit(s: string, sep: char)
    ensures Join(Split(s, sep), sep) == s
  {
    if |s| > 0 {
      JoinSplit(s[1..], sep);
      var rest := Split(s[1..], sep);
      if s[0] == sep {
        assert Split(s, sep)[1..] == rest;
      } else {
        var r := Split(s, sep);
        assert r[0] == [s[0]] + rest[0];
        if |rest| == 1 {
          assert s == [s[0]] + rest[0];
        } else {
          assert r[1..] == rest[1..];
          assert Join(rest, sep) == rest[0] + [sep] + Join(rest[1..], sep);
          assert s == [s[0]] + s[1..];
        }
      }
    }
  }

  /** Text without a separator is one token. */
  lemma {:induction false} SplitSingle(a: string, sep: char)
    requires sep !in a
    ensures Split(a, sep) == [a]
  {
    if |a| > 0 {
      SplitSingle(a[1..], sep);
      assert a == [a[0]] + a[1..];
    }
  }

  /** A separator-free prefix followed by a separator is the first token,
      whatever follows. */
  lemma {:induction false} SplitAfterToken(a: string, b: string, sep: char)
    requires sep !in a
    ensures Split(a + [sep] + b, sep) == [a] + Split(b, sep)
  {
    var s := a + [sep] + b;
    if |a| > 0 {
      SplitAfterToken(a[1..], b, sep);
      assert s[1..] == a[1..] + [sep] + b;
      assert a == [a[0]] + a[1..];
    } else {
      assert s[1..] == b;
    }
  }

  /** Joining separator-free tokens and splitting again gives back the tokens. */
  lemma {:induction false} SplitJoin(ts: seq<string>, sep: char)
    requires |ts| > 0
    requires forall i :: 0 <= i < |ts| ==> sep !in ts[i]
    ensures Split(Join(ts, sep), sep) == ts
  {
    if |ts| == 1 {
      SplitSingle(ts[0], sep);
    } else {
      SplitJoin(ts[1..], sep);
      SplitAfterToken(ts[0], Join(ts[1..], sep), sep);
      assert [ts[0]] + ts[1..] == ts;
    }
  }

  predicate IsDigit(c: char) { '0' <= c <= '9' }

  predicate AllDigits(s: string) { forall i :: 0 <= i < |s| ==> IsDigit(s[i]) }

  function DigitChar(d: nat): char
    requires d < 10
  {
    "0123456789"[d]
  }

  function DigitValue(c: char): nat
    requires IsDigit(c)
  {
    (c as int - '0' as int) as nat
  }

  /** Decimal rendering of a natural number, as Python's `str(n)` or the
      JSON encoder writes it: no sign, no leading zeros. */
  function Decimal(n: nat): (r: string)
    ensures |r| > 0 && AllDigits(r)
    ensures |r| > 1 ==> r[0] != '0'
  {
    if n < 10 then [DigitChar(n)] else Decimal(n / 10) + [DigitChar(n % 10)]
  }

  /** A three-digit number is written with exactly its three digits. */
  lemma DecimalThreeDigits(n: nat)
    requires 100 <= n < 1000
    ensures Decimal(n) == [DigitChar(n / 100), DigitChar(n / 10 % 10), DigitChar(n % 10)]
  {
    assert Decimal(n / 10) == [DigitChar(n / 100), DigitChar(n / 10 % 10)];
  }

  /** Reads a string of decimal digits back as a number. */
  function ParseDecimal(s: string): nat
    requires AllDigits(s)
  {
    if |s| == 0 then 0
    else 10 * ParseDecimal(s[..|s| - 1]) + DigitValue(s[|s| - 1])
  }

  /** Reading back the decimal rendering gives the number. */
  lemma {:induction false} ParseDecimalRoundTrip(n: nat)
    ensures ParseDecimal(Decimal(n)) == n
  {
    var r := Decimal(n);
    if n >= 10 {
      ParseDecimalRoundTrip(n / 10);
      assert r[..|r| - 1] == Decimal(n / 10);
    }
  }

  /** Distinct numbers have distinct renderings. */
  lemma DecimalInjective(m: nat, n: nat)
    requires Decimal(m) == Decimal(n)
    ensures m == n
  {
    ParseDecimalRoundTrip(m);
    ParseDecimalRoundTrip(n);
  }

  /** Length of the longest all-digit prefix of `s`. */
  function DigitRun(s: string): (n: nat)
    ensures n <= |s|
  {
    if |s| == 0 || !IsDigit(s[0]) then 0 else 1 + DigitRun(s[1..])
  }

  lemma {:induction false} DigitRunOf(a: string, c: char, u: string)
    requires AllDigits(a) && !IsDigit(c)
    ensures DigitRun(a + [c] + u) == |a|
  {
    if |a| > 0 {
      DigitRunOf(a[1..], c, u);
      assert (a + [c] + u)[1..] == a[1..] + [c] + u;
    }
  }

  /** A run of digits ended by a non-digit is determined by the text: two
      such prefixes of one text are equal. */
  lemma DigitPrefixUnique(a: string, b: string, c: char, u: string, v: string)
    requires AllDigits(a) && AllDigits(b) && !IsDigit(c)
    requires a + [c] + u == b + [c] + v
    ensures a == b && u == v
  {
    var s := a + [c] + u;
    DigitRunOf(a, c, u);
    DigitRunOf(b, c, v);
    assert a == s[..|a|] == b;
    assert u == s[|a| + 1..] == v;
  }

  /** Two digit fields framed by the same fixed text are recovered from the
      text: the frame pieces after each field start with a non-digit. */
  lemma DigitFieldsUnique(head: string, sep: string, tail: string,
                          a1: string, b1: string, a2: string, b2: string)
    requires AllDigits(a1) && AllDigits(b1) && AllDigits(a2) && AllDigits(b2)
    requires |sep| > 0 && !IsDigit(sep[0]) && |tail| > 0 && !IsDigit(tail[0])
    requires head + a1 + sep + b1 + tail == head + a2 + sep + b2 + tail
    ensures a1 == a2 && b1 == b2
  {
    var t1, t2 := head + a1 + sep + b1 + tail, head + a2 + sep + b2 + tail;
    var r1, r2 := sep[1..] + b1 + tail, sep[1..] + b2 + tail;
    assert t1[|head|..] == a1 + [sep[0]] + r1;
    assert t2[|head|..] == a2 + [sep[0]] + r2;
    DigitPrefixUnique(a1, a2, sep[0], r1, r2);
    assert r1[|sep| - 1..] == b1 + [tail[0]] + tail[1..];
    assert r2[|sep| - 1..] == b2 + [tail[0]] + tail[1..];
    DigitPrefixUnique(b1, b2, tail[0], tail[1..], tail[1..]);
  }
}
