/** Delimited text: the building blocks of every identity key in the controller. */
module Framing {
  import opened Basics

  /** Every token followed by the separator. */
  function Frame(sep: char, tokens: seq<string>): string {
    if tokens == [] then "" else tokens[0] + [sep] + Frame(sep, tokens[1..])
  }

  predicate Free(sep: char, tokens: seq<string>) {
    forall t | t in tokens :: sep !in t
  }

  lemma FrameThree(sep: char, a: string, b: string, c: string)
    ensures Frame(sep, [a, b, c]) == a + [sep] + b + [sep] + c + [sep]
  {
    assert [a, b, c][1..] == [b, c] && [b, c][1..] == [c] && [c][1..] == [];
    assert Frame(sep, [c]) == c + [sep] + Frame(sep, []);
    assert Frame(sep, [b, c]) == b + [sep] + Frame(sep, [c]);
    assert Frame(sep, [a, b, c]) == a + [sep] + Frame(sep, [b, c]);
  }

  lemma FirstSeparator(sep: char, a: string, s: string)
    requires sep !in a
    ensures (a + [sep] + s)[|a|] == sep
    ensures forall i :: 0 <= i < |a| ==> (a + [sep] + s)[i] != sep
  {
  }

  lemma FirstToken(sep: char, a: string, b: string, s: string, t: string)
    requires sep !in a && sep !in b
    requires a + [sep] + s == b + [sep] + t
    ensures a == b && s == t
  {
    var x, y := a + [sep] + s, b + [sep] + t;
    FirstSeparator(sep, a, s);
    FirstSeparator(sep, b, t);
    assert a == x[..|a|] && b == y[..|b|];
    assert s == x[|a| + 1..] && t == y[|b| + 1..];
  }

  /** Framed text determines its tokens. */
  lemma {:induction false} FrameInjective(sep: char, a: seq<string>, b: seq<string>)
    requires Free(sep, a) && Free(sep, b)
    requires Frame(sep, a) == Frame(sep, b)
    ensures a == b
  {
    if a != [] && b != [] {
      FirstToken(sep, a[0], b[0], Frame(sep, a[1..]), Frame(sep, b[1..]));
      FrameInjective(sep, a[1..], b[1..]);
    }
  }

  // ---------------------------------------------------------------- decimal numbers

  function Digit(d: int): char
    requires 0 <= d < 10
  {
    '0' + d as char
  }

  predicate IsDigit(c: char) { '0' <= c <= '9' }

  function Digits(n: nat): (s: string)
    ensures s != ""
    ensures forall c | c in s :: IsDigit(c)
  {
    if n < 10 then [Digit(n)] else Digits(n / 10) + [Digit(n % 10)]
  }

  /** strconv.Itoa and "%d". */
  function Itoa(n: int): (s: string)
    ensures s != ""
    ensures forall c | c in s :: IsDigit(c) || c == '-'
  {
    if n < 0 then "-" + Digits(-n) else Digits(n)
  }

  lemma ItoaIsNotNil(n: int)
    ensures Itoa(n) != "nil"
  {
    assert Itoa(n)[0] in Itoa(n);
    assert "nil"[0] == 'n';
  }

  function DigitsValue(s: string): int {
    if s == "" then 0 else 10 * DigitsValue(s[..|s| - 1]) + (s[|s| - 1] as int - '0' as int)
  }

  lemma {:induction false} DigitsRoundTrip(n: nat)
    ensures DigitsValue(Digits(n)) == n
  {
    if n < 10 {
      assert Digits(n)[..0] == "";
    } else {
      DigitsRoundTrip(n / 10);
      assert Digits(n)[..|Digits(n)| - 1] == Digits(n / 10);
    }
  }

  lemma ItoaInjective(m: int, n: int)
    requires Itoa(m) == Itoa(n)
    ensures m == n
  {
    if m < 0 {
      assert Itoa(m)[0] == '-';
      assert Itoa(m)[1..] == Digits(-m);
      DigitsRoundTrip(-m);
    } else {
      assert IsDigit(Digits(m)[0]);
      DigitsRoundTrip(m);
    }
    if n < 0 {
      assert Itoa(n)[0] == '-';
      assert Itoa(n)[1..] == Digits(-n);
      DigitsRoundTrip(-n);
    } else {
      assert IsDigit(Digits(n)[0]);
      DigitsRoundTrip(n);
    }
  }

  /** An optional number: nothing when absent. */
  function NumberText(n: Option<int>): string {
    match n case None => "" case Some(v) => Itoa(v)
  }

  lemma NumberTextInjective(a: Option<int>, b: Option<int>)
    requires NumberText(a) == NumberText(b)
    ensures a == b
  {
    if a.Some? && b.Some? {
      ItoaInjective(a.value, b.value);
    }
  }
}
