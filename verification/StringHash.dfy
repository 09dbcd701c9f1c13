/** apps/ai-engine/src/services/model.service.ts, lines 467-496: the 32-bit string hash behind
    A/B assignment. The same loop keys the dashboard's limiter
    (apps/dashboard/src/middleware/rateLimit.middleware.ts, lines 159-167). */
module StringHash {
  /** What `charCodeAt` returns. */
  type CodeUnit = c: nat | c < 0x1_0000

  const TWO_31: int := 0x8000_0000

  /** ToInt32 of ECMA-262, section 7.1.6, on integers. */
  function ToInt32(x: int): (r: int)
    ensures -TWO_31 <= r < TWO_31
  {
    if x % 0x1_0000_0000 >= 0x8000_0000 then x % 0x1_0000_0000 - 0x1_0000_0000 else x % 0x1_0000_0000
  }

  /** `x << 5` and `x & x`: both work on, and deliver, 32 bits. */
  function ShiftLeft5(x: int): int { ToInt32(ToInt32(x) * 32) }

  function AndSelf(x: int): int { ToInt32(x) }

  function Abs(x: int): nat { if x < 0 then -x else x }

  function Pow31(n: nat): nat { if n == 0 then 1 else 31 * Pow31(n - 1) }

  /** The base-31 number with these digits, the first one most significant. */
  function Polynomial(s: seq<CodeUnit>): nat {
    if s == [] then 0 else s[0] * Pow31(|s| - 1) + Polynomial(s[1..])
  }

  lemma {:induction false} PolynomialSnoc(s: seq<CodeUnit>, c: CodeUnit)
    ensures Polynomial(s + [c]) == 31 * Polynomial(s) + c
  {
    if s == [] {
      assert ([c])[1..] == [];
    } else {
      assert (s + [c])[1..] == s[1..] + [c] && (s + [c])[0] == s[0];
      PolynomialSnoc(s[1..], c);
      Carry(s[0], Pow31(|s| - 1));
    }
  }

  lemma Carry(digit: int, power: int)
    ensures digit * (31 * power) == 31 * (digit * power)
  {
  }

  /** Wrapping the parts first makes no difference to the wrapped whole. */
  lemma WrapsOnce(h: int, c: int)
    requires -TWO_31 <= h < TWO_31
    ensures AndSelf(ShiftLeft5(h) - h + c) == ToInt32(31 * h + c)
  {
    var k := Turns(32 * h);
    Periodic(31 * h + c, k);
  }

  lemma WrapsInside(h: int, c: int)
    ensures ToInt32(31 * ToInt32(h) + c) == ToInt32(31 * h + c)
  {
    var k := Turns(h);
    Periodic(31 * h + c, 31 * k);
  }

  lemma Turns(x: int) returns (k: int)
    ensures ToInt32(x) == x + k * 0x1_0000_0000
  {
    k := -(x / 0x1_0000_0000) - if x % 0x1_0000_0000 >= 0x8000_0000 then 1 else 0;
  }

  lemma Periodic(x: int, k: int)
    ensures ToInt32(x + k * 0x1_0000_0000) == ToInt32(x)
  {
  }

  /** It is the only 32-bit number that differs from x by whole turns. */
  lemma OnlyResidue(x: int, h: int)
    requires -TWO_31 <= h < TWO_31 && (h - x) % 0x1_0000_0000 == 0
    ensures h == ToInt32(x)
  {
    var k := (h - x) / 0x1_0000_0000;
    Periodic(x, k);
  }

  /** The loop computes the signed 32-bit residue of the polynomial of the code units. */
  method HashString(s: seq<CodeUnit>) returns (r: nat)
    ensures r == Abs(ToInt32(Polynomial(s))) <= TWO_31
    ensures (r - Polynomial(s)) % 0x1_0000_0000 == 0 || (r + Polynomial(s)) % 0x1_0000_0000 == 0
  {
    var hash := 0;
    for i := 0 to |s|
      invariant hash == ToInt32(Polynomial(s[..i]))
    {
      assert s[..i + 1] == s[..i] + [s[i]];
      PolynomialSnoc(s[..i], s[i]);
      WrapsOnce(hash, s[i]);
      WrapsInside(Polynomial(s[..i]), s[i]);
      hash := ShiftLeft5(hash) - hash + s[i];
      hash := AndSelf(hash);
    }
    assert s[..|s|] == s;
    r := Abs(hash);
    SameResidue(Polynomial(s));
  }

  lemma SameResidue(x: int)
    ensures var r := Abs(ToInt32(x)); (r - x) % 0x1_0000_0000 == 0 || (r + x) % 0x1_0000_0000 == 0
  {
    var k := Turns(x);
    hide ToInt32;
  }

  /** `times100` is the floating-point product with 100, of which only monotonicity is used. */
  datatype Test = Test(versionA: string, versionB: string, trafficSplit: real)

  ghost predicate Monotone(times100: real -> real) { forall x, y :: x <= y ==> times100(x) <= times100(y) }

  function Bucket(cartId: seq<CodeUnit>): (b: nat)
    ensures b < 100
  {
    Abs(ToInt32(Polynomial(cartId))) % 100
  }

  /** For the cart's residue h: the bucket is the last two decimal digits of h without its sign. */
  lemma BucketIs(cartId: seq<CodeUnit>, h: int)
    requires -TWO_31 <= h < TWO_31 && (h - Polynomial(cartId)) % 0x1_0000_0000 == 0
    ensures h >= 0 ==> (h - Bucket(cartId)) % 100 == 0
    ensures h < 0 ==> (-h - Bucket(cartId)) % 100 == 0
  {
    hide ToInt32, Polynomial;
    OnlyResidue(Polynomial(cartId), h);
    LastTwoDigits(Abs(h));
  }

  lemma LastTwoDigits(n: nat)
    ensures (n - n % 100) % 100 == 0
  {
  }

  predicate AssignedToA(cartId: seq<CodeUnit>, trafficSplit: real, times100: real -> real) {
    Bucket(cartId) < times100(trafficSplit).Floor
  }

  method GetABTestVersion(cartId: seq<CodeUnit>, test: Test, times100: real -> real) returns (version: string)
    ensures version == if AssignedToA(cartId, test.trafficSplit, times100) then test.versionA else test.versionB
    ensures Bucket(cartId) < times100(test.trafficSplit).Floor ==> version == test.versionA
    ensures Bucket(cartId) >= times100(test.trafficSplit).Floor ==> version == test.versionB
  {
    var hash := HashString(cartId);
    var bucket := hash % 100;
    var splitPoint := times100(test.trafficSplit).Floor;
    if bucket < splitPoint {
      version := test.versionA;
    } else {
      version := test.versionB;
    }
  }

  /** Raising the split moves carts only from version B to version A, and moves one exactly if
      its bucket lies between the two split points. */
  lemma RaisingTheSplitMovesOnlyToA(cartId: seq<CodeUnit>, low: real, high: real, times100: real -> real)
    requires Monotone(times100) && low <= high
    ensures AssignedToA(cartId, low, times100) ==> AssignedToA(cartId, high, times100)
    ensures AssignedToA(cartId, low, times100) != AssignedToA(cartId, high, times100)
        <==> times100(low).Floor <= Bucket(cartId) < times100(high).Floor
  {
    assert times100(low) <= times100(high);
  }

  /** Every bucket is some cart's: a split point of n sends to A exactly the n lowest of the
      hundred buckets, so everybody at 100 and nobody at 0. */
  lemma EveryBucketOccurs(b: nat)
    requires b < 100
    ensures Bucket([b]) == b
  {
    assert Polynomial([b]) == b;
  }
}
