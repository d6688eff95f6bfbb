// Decimal numerals, as written by fmt.Sprintf("%d") and fmt.Sprintf("%06d") and read by strconv.ParseUint,
// and the byte order in which SQLite's BINARY collation sorts text.
module Decimals {

  function Pow10(k: nat): (p: nat)
    ensures p >= 1
  {
    if k == 0 then 1 else 10 * Pow10(k - 1)
  }

  predicate IsDigit(c: char) {
    '0' <= c <= '9'
  }

  function Digit(d: nat): (c: char)
    requires d < 10
    ensures IsDigit(c)
  {
    ('0' as int + d) as char
  }

  function DigitValue(c: char): (d: nat)
    requires IsDigit(c)
    ensures d < 10 && Digit(d) == c
  {
    c as int - '0' as int
  }

  predicate AllDigits(s: string) {
    forall i :: 0 <= i < |s| ==> IsDigit(s[i])
  }

  // The last w digits of n, most significant first.
  function Digits(n: nat, w: nat): (s: string)
    ensures |s| == w && AllDigits(s)
  {
    if w == 0 then "" else Digits(n / 10, w - 1) + [Digit(n % 10)]
  }

  // How many digits "%d" prints.
  function Width(n: nat): (w: nat)
    ensures w >= 1
  {
    if n < 10 then 1 else 1 + Width(n / 10)
  }

  // fmt.Sprintf("%d", n)
  function Decimal(n: nat): (s: string)
    ensures AllDigits(s) && s != ""
  {
    Digits(n, Width(n))
  }

  function Value(s: string): nat
    requires AllDigits(s)
  {
    if s == "" then 0 else Value(s[..|s| - 1]) * 10 + DigitValue(s[|s| - 1])
  }

  lemma {:induction false} WidthBounds(n: nat)
    ensures n < Pow10(Width(n))
    ensures n >= 10 ==> Pow10(Width(n) - 1) <= n
  {
    if n >= 10 {
      WidthBounds(n / 10);
      if n / 10 < 10 {
        assert Pow10(1) == 10;
      }
    }
  }

  lemma {:induction false} WidthLeast(n: nat, w: nat)
    requires w >= 1 && n < Pow10(w)
    ensures Width(n) <= w
  {
    if n >= 10 && w > 1 {
      WidthLeast(n / 10, w - 1);
    }
  }

  lemma {:induction false} WidthMonotone(m: nat, n: nat)
    requires m <= n
    ensures Width(m) <= Width(n)
  {
    WidthBounds(n);
    WidthLeast(m, Width(n));
  }

  // Reading back what Digits wrote gives the number, whenever the width was enough for it.
  lemma {:induction false} ValueOfDigits(n: nat, w: nat)
    requires n < Pow10(w)
    ensures Value(Digits(n, w)) == n
  {
    if w > 0 {
      ValueOfDigits(n / 10, w - 1);
      ValueSnoc(Digits(n / 10, w - 1), Digit(n % 10));
    }
  }

  lemma ValueSnoc(s: string, c: char)
    requires AllDigits(s) && IsDigit(c)
    ensures AllDigits(s + [c]) && Value(s + [c]) == Value(s) * 10 + DigitValue(c)
  {
    assert (s + [c])[..|s|] == s;
  }

  lemma DecimalInjective(m: nat, n: nat)
    requires Decimal(m) == Decimal(n)
    ensures m == n
  {
    WidthBounds(m);
    WidthBounds(n);
    ValueOfDigits(m, Width(m));
    ValueOfDigits(n, Width(n));
  }

  // n without its last k digits
  function Cut(n: nat, k: nat): nat {
    if k == 0 then n else Cut(n / 10, k - 1)
  }

  lemma {:induction false} CutFits(n: nat, w: nat, k: nat)
    requires n < Pow10(w + k)
    ensures Cut(n, k) < Pow10(w)
    decreases k
  {
    if k > 0 {
      CutFits(n / 10, w, k - 1);
    }
  }

  lemma {:induction false} DigitsPrefix(n: nat, w: nat, k: nat)
    ensures Digits(n, w + k)[..w] == Digits(Cut(n, k), w)
    decreases k
  {
    if k > 0 {
      DigitsPrefix(n / 10, w, k - 1);
      assert Digits(n, w + k)[..w] == Digits(n / 10, w + k - 1)[..w];
    }
  }

  // memcmp order on text.
  predicate LexLe(a: string, b: string) {
    a == "" || (b != "" && (a[0] < b[0] || (a[0] == b[0] && LexLe(a[1..], b[1..]))))
  }

  lemma {:induction false} LexTotal(a: string, b: string)
    ensures LexLe(a, b) || LexLe(b, a)
    ensures LexLe(a, b) && LexLe(b, a) ==> a == b
  {
    if a != "" && b != "" && a[0] == b[0] {
      LexTotal(a[1..], b[1..]);
      assert a == [a[0]] + a[1..] && b == [b[0]] + b[1..];
    }
  }

  lemma {:induction false} LexTransitive(a: string, b: string, c: string)
    requires LexLe(a, b) && LexLe(b, c)
    ensures LexLe(a, c)
  {
    if a != "" && a[0] == b[0] && b[0] == c[0] {
      LexTransitive(a[1..], b[1..], c[1..]);
    }
  }

  lemma {:induction false} LexCommonPrefix(p: string, a: string, b: string)
    ensures LexLe(p + a, p + b) <==> LexLe(a, b)
  {
    if p == "" {
      assert p + a == a && p + b == b;
    } else {
      LexCommonPrefix(p[1..], a, b);
      assert (p + a)[1..] == p[1..] + a && (p + b)[1..] == p[1..] + b;
    }
  }

  // Against a longer text only the first |a| characters matter.
  lemma {:induction false} LexAgainstLonger(a: string, b: string)
    requires |a| <= |b|
    ensures LexLe(a, b) <==> LexLe(a, b[..|a|])
  {
    if a != "" {
      LexAgainstLonger(a[1..], b[1..]);
      assert b[..|a|][1..] == b[1..][..|a| - 1];
    }
  }

  lemma {:induction false} LexAppend(p: string, q: string, x: char, y: char)
    requires |p| == |q|
    ensures LexLe(p + [x], q + [y]) <==> (if p == q then x <= y else LexLe(p, q))
  {
    if p == "" {
      assert LexLe([x], [y]) <==> x <= y by {
        assert [x][1..] == "" && [y][1..] == "";
      }
      assert p + [x] == [x] && q + [y] == [y];
    } else {
      assert (p + [x])[1..] == p[1..] + [x] && (q + [y])[1..] == q[1..] + [y];
      LexAppend(p[1..], q[1..], x, y);
      assert p == q <==> p[0] == q[0] && p[1..] == q[1..] by {
        assert p == [p[0]] + p[1..] && q == [q[0]] + q[1..];
      }
    }
  }

  // Equal widths: text order is number order.
  lemma {:induction false} LexOfDigits(m: nat, n: nat, w: nat)
    requires m < Pow10(w) && n < Pow10(w)
    ensures LexLe(Digits(m, w), Digits(n, w)) <==> m <= n
  {
    if w > 0 {
      LexOfDigits(m / 10, n / 10, w - 1);
      LexAppend(Digits(m / 10, w - 1), Digits(n / 10, w - 1), Digit(m % 10), Digit(n % 10));
      if Digits(m / 10, w - 1) == Digits(n / 10, w - 1) {
        ValueOfDigits(m / 10, w - 1);
        ValueOfDigits(n / 10, w - 1);
      }
    }
  }

  // Values are read most significant digit first, so leading zeros do not matter.
  lemma {:induction false} ValueLeadingZero(s: string)
    requires AllDigits(s)
    ensures AllDigits("0" + s) && Value("0" + s) == Value(s)
  {
    if s == "" {
      assert Value("0") == Value("") * 10 + DigitValue('0') by {
        assert "0"[..0] == "";
      }
      assert "0" + s == "0";
    } else {
      var t := "0" + s;
      assert t[..|t| - 1] == "0" + s[..|s| - 1];
      ValueLeadingZero(s[..|s| - 1]);
    }
  }
}
