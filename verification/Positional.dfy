/** Positional notation: numbers as digits, least significant first. */
module Positional {

  function Pow(b: nat, n: nat): (r: nat)
    ensures b > 0 ==> r > 0
  {
    if n == 0 then 1 else b * Pow(b, n - 1)
  }

  function Div(x: nat, b: nat): nat
    requires b > 0
  {
    x / b
  }

  function Mod(x: nat, b: nat): (r: nat)
    requires b > 0
    ensures r < b
  {
    x % b
  }

  /** The `k` least significant digits of `x`. */
  function Digits(x: nat, b: nat, k: nat): (r: seq<nat>)
    requires b > 0
    ensures |r| == k
    ensures forall i :: 0 <= i < k ==> r[i] < b
    decreases k
  {
    if k == 0 then [] else [Mod(x, b)] + Digits(Div(x, b), b, k - 1)
  }

  function Value(s: seq<nat>, b: nat): nat {
    if s == [] then 0 else s[0] + b * Value(s[1..], b)
  }

  function Reverse<T>(s: seq<T>): (r: seq<T>)
    ensures |r| == |s|
  {
    if s == [] then [] else Reverse(s[1..]) + [s[0]]
  }

  lemma {:induction false} ReverseAt<T>(s: seq<T>, k: nat)
    requires k < |s|
    ensures Reverse(s)[k] == s[|s| - 1 - k]
  {
    if k < |s| - 1 {
      ReverseAt(s[1..], k);
    }
  }

  lemma ReverseElements<T>(s: seq<T>)
    ensures forall k :: 0 <= k < |s| ==> Reverse(s)[k] == s[|s| - 1 - k]
  {
  }

  lemma {:induction false} ReverseSnoc<T>(s: seq<T>, x: T)
    ensures Reverse(s + [x]) == [x] + Reverse(s)
  {
    if s == [] {
      assert ([x])[1..] == [];
    } else {
      ReverseSnoc(s[1..], x);
      assert (s + [x])[1..] == s[1..] + [x];
    }
  }

  lemma {:induction false} ReverseTwice<T>(s: seq<T>)
    ensures Reverse(Reverse(s)) == s
  {
    if s != [] {
      ReverseTwice(s[1..]);
      ReverseSnoc(Reverse(s[1..]), s[0]);
    }
  }

  lemma DivDiv(x: nat, b: nat, c: nat)
    requires b > 0 && c > 0
    ensures b * c > 0 && Div(x, b * c) == Div(Div(x, b), c)
    ensures Mod(x, b * c) == Mod(x, b) + b * Mod(Div(x, b), c)
  {
    var q, r := x / b, x % b;
    var qq, rr := q / c, q % c;
    assert x == b * (c * qq + rr) + r;
    assert b * (c * qq + rr) == (b * c) * qq + b * rr by { Distribute(b, c * qq, rr); }
    assert b * rr + b <= b * c by { Distribute(b, rr, 1); Monotone(b, rr + 1, c); }
    QuotientUnique(x, b * c, qq, b * rr + r);
  }

  lemma Distribute(a: int, b: int, c: int)
    ensures a * (b + c) == a * b + a * c
  {
  }

  lemma Monotone(a: nat, b: int, c: int)
    requires b <= c
    ensures a * b <= a * c
  {
  }

  lemma QuotientUnique(x: int, d: int, q: int, r: int)
    requires d > 0 && x == d * q + r && 0 <= r < d
    ensures x / d == q && x % d == r
  {
    var e := x / d - q;
    assert d * e == r - x % d by { Distribute(d, q, e); }
    if e > 0 { Monotone(d, 1, e); } else if e < 0 { Monotone(d, e, -1); }
  }

  lemma DivModUnique(x: nat, d: nat, q: nat, r: nat)
    requires d > 0 && x == d * q + r && r < d
    ensures Div(x, d) == q && Mod(x, d) == r
  {
    QuotientUnique(x, d, q, r);
  }

  lemma ByOne(x: nat)
    ensures Div(x, 1) == x && Mod(x, 1) == 0
  {
  }

  lemma {:induction false} DigitAt(x: nat, b: nat, k: nat, i: nat)
    requires b > 0 && i < k
    ensures Digits(x, b, k)[i] == Mod(Div(x, Pow(b, i)), b)
    decreases k
  {
    hide Div, Mod;
    if i == 0 {
      ByOne(x);
    } else {
      DigitAt(Div(x, b), b, k - 1, i - 1);
      DivDiv(x, b, Pow(b, i - 1));
    }
  }

  lemma {:induction false} DigitsSlice(x: nat, b: nat, n: nat, a: nat, m: nat)
    requires b > 0 && a + m <= n
    ensures Digits(x, b, n)[a..a + m] == Digits(Div(x, Pow(b, a)), b, m)
    decreases n
  {
    hide Div, Mod;
    if a > 0 {
      DigitsSlice(Div(x, b), b, n - 1, a - 1, m);
      DivDiv(x, b, Pow(b, a - 1));
      assert Digits(x, b, n)[a..a + m] == Digits(Div(x, b), b, n - 1)[a - 1..a - 1 + m];
    } else if m > 0 {
      ByOne(x);
      ByOne(Div(x, b));
      DigitsSlice(Div(x, b), b, n - 1, 0, m - 1);
      assert Digits(x, b, n)[0..m] == [Mod(x, b)] + Digits(Div(x, b), b, n - 1)[0..m - 1];
    }
  }

  /** The digits of a number denote it, modulo the weight of the first one left out. */
  lemma {:induction false} ValueOfDigits(x: nat, b: nat, k: nat)
    requires b > 0
    ensures Value(Digits(x, b, k), b) == Mod(x, Pow(b, k))
    decreases k
  {
    hide Div, Mod;
    if k == 0 {
      ByOne(x);
    } else {
      ValueOfDigits(Div(x, b), b, k - 1);
      DivDiv(x, b, Pow(b, k - 1));
      assert Digits(x, b, k)[1..] == Digits(Div(x, b), b, k - 1);
    }
  }

  /** A string of digits is the notation of its value. */
  lemma {:induction false} DigitsOfValue(s: seq<nat>, b: nat)
    requires b > 0
    requires forall i :: 0 <= i < |s| ==> s[i] < b
    ensures Value(s, b) < Pow(b, |s|) && Digits(Value(s, b), b, |s|) == s
  {
    hide Div, Mod;
    if s != [] {
      var rest := Value(s[1..], b);
      DigitsOfValue(s[1..], b);
      DivModUnique(Value(s, b), b, rest, s[0]);
      Monotone(b, rest + 1, Pow(b, |s| - 1));
      Distribute(b, rest, 1);
      assert s == [s[0]] + s[1..];
    }
  }

  lemma DigitsInjective(x: nat, y: nat, b: nat, k: nat)
    requires b > 0 && x < Pow(b, k) && y < Pow(b, k) && Digits(x, b, k) == Digits(y, b, k)
    ensures x == y
  {
    hide Div, Mod, Pow, Digits, Value;
    ValueOfDigits(x, b, k);
    ValueOfDigits(y, b, k);
    DivModUnique(x, Pow(b, k), 0, x);
    DivModUnique(y, Pow(b, k), 0, y);
  }

  lemma {:induction false} ValueAppend(s: seq<nat>, t: seq<nat>, b: nat)
    ensures Value(s + t, b) == Value(s, b) + Pow(b, |s|) * Value(t, b)
  {
    if s == [] {
      assert s + t == t;
    } else {
      ValueAppend(s[1..], t, b);
      assert (s + t)[1..] == s[1..] + t;
      Distribute(b, Value(s[1..], b), Pow(b, |s| - 1) * Value(t, b));
      assert b * (Pow(b, |s| - 1) * Value(t, b)) == Pow(b, |s|) * Value(t, b)
        by { Reassociate(b, Pow(b, |s| - 1), Value(t, b)); }
    }
  }

  lemma Reassociate(a: int, b: int, c: int)
    ensures a * (b * c) == (a * b) * c
  {
  }

  lemma {:induction false} PowAdd(b: nat, m: nat, n: nat)
    ensures Pow(b, m + n) == Pow(b, m) * Pow(b, n)
  {
    if m > 0 {
      PowAdd(b, m - 1, n);
      Reassociate(b, Pow(b, m - 1), Pow(b, n));
    }
  }

  lemma PowGrows(b: nat, m: nat, n: nat)
    requires b > 0 && m <= n
    ensures Pow(b, m) <= Pow(b, n)
  {
  }

  lemma {:induction false} PowPow(b: nat, m: nat, i: nat, a: nat)
    requires a == i * m
    ensures Pow(Pow(b, m), i) == Pow(b, a)
    decreases i
  {
    if i > 0 {
      Distribute(m, i - 1, 1);
      PowPow(b, m, i - 1, a - m);
      PowAdd(b, m, a - m);
    }
  }

  /** A group of `m` binary digits is one digit in base 2^m. */
  lemma Grouping(x: nat, n: nat, m: nat, k: nat, i: nat, a: nat)
    requires i < k && a == i * m && a + m <= n
    ensures Value(Digits(x, 2, n)[a..a + m], 2) == Digits(x, Pow(2, m), k)[i]
  {
    hide Div, Mod, Pow, Digits, Value;
    DigitsSlice(x, 2, n, a, m);
    ValueOfDigits(Div(x, Pow(2, a)), 2, m);
    DigitAt(x, Pow(2, m), k, i);
    PowPow(2, m, i, a);
  }

  lemma InRange(m: nat, k: nat, i: nat)
    requires i < k
    ensures 0 <= i * m <= i * m + m <= k * m
  {
    Monotone(m, i + 1, k);
    Distribute(m, i, 1);
  }

  /** The values of the groups of `m` digits. */
  function Chunks(s: seq<nat>, b: nat, m: nat, k: nat): (r: seq<nat>)
    requires |s| == k * m
    ensures |r| == k
    decreases k
  {
    if k == 0 then []
    else
      InRange(m, k, 0);
      assert |s[m..]| == (k - 1) * m;
      [Value(s[..m], b)] + Chunks(s[m..], b, m, k - 1)
  }

  /** Grouping digits does not change the number, even when some of them are not digits. */
  lemma {:induction false} ChunksValue(s: seq<nat>, b: nat, m: nat, k: nat)
    requires |s| == k * m
    ensures Value(Chunks(s, b, m, k), Pow(b, m)) == Value(s, b)
    decreases k
  {
    hide Pow, Value;
    if k == 0 {
      EmptyValue(b);
      EmptyValue(Pow(b, m));
    } else {
      InRange(m, k, 0);
      ChunksValue(s[m..], b, m, k - 1);
      ValueAppend(s[..m], s[m..], b);
      assert s == s[..m] + s[m..];
      var g := Chunks(s, b, m, k);
      ConsValue(g, Pow(b, m));
      assert g[1..] == Chunks(s[m..], b, m, k - 1);
    }
  }

  lemma EmptyValue(b: nat)
    ensures Value([], b) == 0
  {
  }

  lemma ConsValue(s: seq<nat>, b: nat)
    requires s != []
    ensures Value(s, b) == s[0] + b * Value(s[1..], b)
  {
  }

  lemma {:induction false} ChunkAt(s: seq<nat>, b: nat, m: nat, k: nat, i: nat, a: nat)
    requires |s| == k * m && i < k && a == i * m
    ensures a + m <= |s|
    ensures Chunks(s, b, m, k)[i] == Value(s[a..a + m], b)
    decreases k
  {
    hide Value;
    InRange(m, k, i);
    if i > 0 {
      InRange(m, k, 0);
      Distribute(m, i, -1);
      Distribute(m, k, -1);
      var rest := s[m..];
      ChunkAt(rest, b, m, k - 1, i - 1, a - m);
      assert Chunks(s, b, m, k)[i] == Chunks(rest, b, m, k - 1)[i - 1];
      hide Chunks;
      assert rest[a - m..a] == s[a..a + m];
    }
  }

  lemma {:induction false} ValueUpdate(s: seq<nat>, b: nat, i: nat, d: nat)
    requires i < |s|
    ensures Value(s[i := d], b) == Value(s, b) + Pow(b, i) * (d - s[i])
  {
    if i > 0 {
      ValueUpdate(s[1..], b, i - 1, d);
      assert s[i := d][1..] == s[1..][i - 1 := d];
      Distribute(b, Value(s[1..], b), Pow(b, i - 1) * (d - s[i]));
      Reassociate(b, Pow(b, i - 1), d - s[i]);
    }
  }
}
