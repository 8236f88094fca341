/**
 * Correlation identifiers: `createRandomString` and `generateUUID` of
 * src/util.ts. The cryptographic random source (`getRandomValue`) and the
 * clocks are not modelled: their values are parameters.
 */
module Identifiers {

  /** What `getRandomValue` yields: one element of a `Uint32Array`. */
  type Uint32 = x: int | 0 <= x < 0x1_0000_0000

  function Pow(b: nat, k: nat): (p: nat)
    ensures b > 0 ==> p > 0
  {
    if k == 0 then 1 else b * Pow(b, k - 1)
  }

  /** The digit characters of `Number.prototype.toString(radix)`: `0`-`9`, then `a`-`z`. */
  function DigitChar(d: nat): char
    requires d < 36
  {
    if d < 10 then (48 + d) as char else (97 + d - 10) as char
  }

  /** The value of a digit character, or -1 for a character that is not one. */
  function DigitValue(c: char): int
  {
    if '0' <= c <= '9' then c as int - 48
    else if 'a' <= c <= 'z' then c as int - 97 + 10
    else -1
  }

  lemma DivideByRadix(n: nat, radix: nat)
    requires 2 <= radix <= n
    ensures 0 < n / radix < n
    ensures n == n / radix * radix + n % radix
  {
  }

  /** `n.toString(radix)` for a non-negative integer `n`. */
  function ToRadixString(n: nat, radix: nat): (s: string)
    requires 2 <= radix <= 36
    ensures |s| >= 1
    ensures forall i :: 0 <= i < |s| ==> 0 <= DigitValue(s[i]) < radix
    ensures n > 0 ==> s[0] != '0'
    decreases n
  {
    if n < radix then [DigitChar(n)]
    else
      DivideByRadix(n, radix);
      ToRadixString(n / radix, radix) + [DigitChar(n % radix)]
  }

  /** The number a string of digits denotes in the given radix. */
  function ParseRadix(s: string, radix: nat): int
  {
    if s == [] then 0 else ParseRadix(s[..|s| - 1], radix) * radix + DigitValue(s[|s| - 1])
  }

  /** Rendering in a radix loses nothing: parsing the digits gives the number back. */
  lemma {:induction false} RadixRoundTrip(n: nat, radix: nat)
    requires 2 <= radix <= 36
    ensures ParseRadix(ToRadixString(n, radix), radix) == n
  {
    if n >= radix {
      DivideByRadix(n, radix);
      RadixRoundTrip(n / radix, radix);
      var s := ToRadixString(n, radix);
      assert s[..|s| - 1] == ToRadixString(n / radix, radix);
    }
  }

  lemma DivBelow(n: nat, r: nat, m: nat)
    requires r > 0
    ensures n < r * m <==> n / r < m
  {
    var q := n / r;
    assert n == r * q + n % r;
    if q < m {
      assert r * q <= r * (m - 1) by { MulMonotone(r, q, m - 1); }
    } else {
      MulMonotone(r, m, q);
    }
  }

  lemma MulMonotone(r: nat, a: nat, b: nat)
    requires a <= b
    ensures r * a <= r * b
  {
  }

  lemma {:induction false} PowAtLeastBase(b: nat, k: nat)
    requires b >= 1 && k >= 1
    ensures Pow(b, k) >= b
  {
    if k > 1 {
      PowAtLeastBase(b, k - 1);
      MulMonotone(b, 1, Pow(b, k - 1));
    }
  }

  /** A number has at most `k` digits in a radix exactly when it is below radix^k. */
  lemma {:induction false} RadixLength(n: nat, radix: nat, k: nat)
    requires 2 <= radix <= 36 && k >= 1
    ensures |ToRadixString(n, radix)| <= k <==> n < Pow(radix, k)
    decreases n
  {
    PowAtLeastBase(radix, k);
    if n >= radix && k > 1 {
      DivideByRadix(n, radix);
      RadixLength(n / radix, radix, k - 1);
      DivBelow(n, radix, Pow(radix, k - 1));
    }
  }

  /** Division with remainder has only one solution. */
  lemma DivModUnique(n: int, m: nat, k: int, x: int)
    requires m > 0 && 0 <= x < m && n == m * k + x
    ensures n % m == x
  {
    var q, a := n / m, n % m;
    assert m * (k - q) == a - x;
    if k > q {
      MulMonotone(m, 1, k - q);
    } else if k < q {
      MulMonotone(m, 1, q - k);
    }
  }

  /** The low digits below r * p split into the last digit and the low digits of n / r below p. */
  lemma ModSplit(n: nat, r: nat, p: nat)
    requires r > 0 && p > 0
    ensures n % (r * p) == (n / r) % p * r + n % r
  {
    var q, a := n / r, n % r;
    var k, b := q / p, q % p;
    assert n == r * q + a;
    assert q == p * k + b;
    assert n == (r * p) * k + (b * r + a) by {
      assert r * q == r * (p * k) + r * b;
    }
    assert b * r + a < r * p by {
      MulMonotone(r, b, p - 1);
      assert r * (p - 1) == r * p - r;
    }
    DivModUnique(n, r * p, k, b * r + a);
  }

  lemma ParseSnoc(u: string, c: char, radix: nat)
    ensures ParseRadix(u + [c], radix) == ParseRadix(u, radix) * radix + DigitValue(c)
  {
    assert (u + [c])[..|u|] == u;
  }

  lemma DigitRoundTrip(d: nat)
    requires d < 36
    ensures DigitValue(DigitChar(d)) == d
  {
  }

  /**
   * Dropping the first digit of `n.toString(radix)` leaves the digits of
   * `n` modulo radix^(number of digits left).
   */
  lemma {:induction false} TailValue(n: nat, radix: nat)
    requires 2 <= radix <= 36
    ensures var s := ToRadixString(n, radix);
      ParseRadix(s[1..], radix) == n % Pow(radix, |s| - 1)
    decreases n
  {
    if n >= radix {
      DivideByRadix(n, radix);
      var q, a := n / radix, n % radix;
      var t := ToRadixString(q, radix);
      var s := ToRadixString(n, radix);
      var p := Pow(radix, |t| - 1);
      TailValue(q, radix);
      assert s[1..] == t[1..] + [DigitChar(a)];
      ParseSnoc(t[1..], DigitChar(a), radix);
      DigitRoundTrip(a);
      assert Pow(radix, |s| - 1) == radix * p;
      ModSplit(n, radix, p);
    }
  }

  /**
   * `createRandomString()`: the draw in base 36 with its first digit dropped.
   * The token is the draw's low base-36 digits: at most six of them; at
   * least five only when the draw is at least 36^5, and six exactly when it
   * is at least 36^6.
   */
  function CreateRandomString(draw: Uint32): (s: string)
    ensures |s| <= 6
    ensures |s| >= 5 <==> draw >= Pow(36, 5)
    ensures |s| == 6 <==> draw >= Pow(36, 6)
    ensures forall i :: 0 <= i < |s| ==> 0 <= DigitValue(s[i]) < 36
    ensures ParseRadix(s, 36) == draw % Pow(36, |s|)
    ensures |s| == 0 <==> draw < 36
    ensures |s| >= 1 ==> Pow(36, |s|) <= draw < Pow(36, |s| + 1)
  {
    var digits := ToRadixString(draw, 36);
    RadixLength(draw, 36, 1);
    RadixLength(draw, 36, |digits|);
    RadixLength(draw, 36, if |digits| > 1 then |digits| - 1 else 1);
    TailValue(draw, 36);
    RadixLength(draw, 36, 7);
    RadixLength(draw, 36, 6);
    RadixLength(draw, 36, 5);
    ToRadixString(draw, 36)[1..]
  }

  /** The doc comment's "5 to 6 characters" fails for small draws. */
  lemma ShortRandomStrings()
    ensures CreateRandomString(0) == ""
    ensures |CreateRandomString(35 * 36 * 36)| == 2
  {
  }

  /** The number of placeholders in the template `'xxxxxxxxxxxxxxxxxxxx'`. */
  const PlaceholderCount := 20

  /** `ToInt32` of ECMA-262, applied by `>>=` to its left operand. */
  function ToInt32(x: int): int
  {
    var m := x % 0x1_0000_0000;
    if m >= 0x8000_0000 then m - 0x1_0000_0000 else m
  }

  /** The identifier the draws determine: placeholder `i` becomes the hex digit `draws[i] % 16`. */
  function UuidOf(draws: seq<Uint32>): (u: string)
    requires |draws| == PlaceholderCount
    ensures |u| == PlaceholderCount
    ensures forall i :: 0 <= i < |u| ==> 0 <= DigitValue(u[i]) < 16
    ensures forall i :: 0 <= i < |u| ==> DigitValue(u[i]) == draws[i] % 16
  {
    seq(PlaceholderCount, i requires 0 <= i < PlaceholderCount => DigitChar(draws[i] % 16))
  }

  /** Two identifiers agree exactly when every pair of draws agrees modulo 16. */
  lemma UuidDeterminedByDraws(a: seq<Uint32>, b: seq<Uint32>)
    requires |a| == |b| == PlaceholderCount
    ensures UuidOf(a) == UuidOf(b) <==> forall i :: 0 <= i < PlaceholderCount ==> a[i] % 16 == b[i] % 16
  {
    if UuidOf(a) == UuidOf(b) {
      forall i | 0 <= i < PlaceholderCount
        ensures a[i] % 16 == b[i] % 16
      {
        assert DigitValue(UuidOf(a)[i]) == DigitValue(UuidOf(b)[i]);
      }
    }
  }

  /**
   * `generateUUID()`: `now` is the clock seed, one draw per placeholder.
   * The seed is shifted right by 4 at every placeholder but never reaches
   * the output, which depends on the draws alone.
   */
  method GenerateUUID(now: int, draws: seq<Uint32>) returns (uuid: string)
    requires |draws| == PlaceholderCount
    ensures uuid == UuidOf(draws)
  {
    var d := now;
    uuid := "";
    for i := 0 to PlaceholderCount
      invariant uuid == UuidOf(draws)[..i]
    {
      var r := draws[i] % 16;
      d := ToInt32(d) / 16;
      uuid := uuid + ToRadixString(r, 16);
    }
  }
}
