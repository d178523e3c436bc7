/** Distance between perceptual hashes (src/common/utils/image-hash.util.ts). A hash is the number
    its hexadecimal text denotes. */
module ImageHash {

  /** Exclusive or of two non-negative numbers. */
  function Xor(a: nat, b: nat): nat
    decreases a + b
  {
    if a == 0 && b == 0 then 0 else (if a % 2 == b % 2 then 0 else 1) + 2 * Xor(a / 2, b / 2)
  }

  function Ones(n: nat): nat {
    if n == 0 then 0 else n % 2 + Ones(n / 2)
  }

  method HammingDistance(a: nat, b: nat) returns (distance: nat)
    ensures distance == Distance(a, b)
  {
    var xor := Xor(a, b);
    distance := 0;
    while xor > 0
      invariant distance + Ones(xor) == Ones(Xor(a, b))
    {
      distance := distance + xor % 2;
      xor := xor / 2;
    }
    OnesOfXor(a, b);
  }

  /** The number of binary places where `a` and `b` differ. */
  function Distance(a: nat, b: nat): nat
    decreases a + b
  {
    if a == 0 && b == 0 then 0 else (if a % 2 == b % 2 then 0 else 1) + Distance(a / 2, b / 2)
  }

  lemma {:induction false} OnesOfXor(a: nat, b: nat)
    ensures Ones(Xor(a, b)) == Distance(a, b)
    decreases a + b
  {
    if a != 0 || b != 0 {
      OnesOfXor(a / 2, b / 2);
      var half, bit := Xor(a / 2, b / 2), if a % 2 == b % 2 then 0 else 1;
      assert (bit + 2 * half) / 2 == half && (bit + 2 * half) % 2 == bit;
    }
  }

  lemma {:induction false} DistanceSymmetric(a: nat, b: nat)
    ensures Distance(a, b) == Distance(b, a)
    decreases a + b
  {
    if a != 0 || b != 0 {
      DistanceSymmetric(a / 2, b / 2);
    }
  }

  lemma {:induction false} DistanceZeroIffEqual(a: nat, b: nat)
    ensures Distance(a, b) == 0 <==> a == b
    decreases a + b
  {
    if a != 0 || b != 0 {
      DistanceZeroIffEqual(a / 2, b / 2);
    }
  }

  /** With symmetry and identity, the distance is a metric. */
  lemma {:induction false} TriangleInequality(a: nat, b: nat, c: nat)
    ensures Distance(a, c) <= Distance(a, b) + Distance(b, c)
    decreases a + b + c
  {
    if a != 0 || b != 0 || c != 0 {
      TriangleInequality(a / 2, b / 2, c / 2);
      assert Distance(0, 0) == 0;
    }
  }

  // ------------------------------------------------------------ what a hash records

  /** The number a hash's bit string (one bit per pair of neighbouring pixels) denotes, first bit most
      significant. */
  function ValueOfBits(bits: seq<bool>): nat {
    if bits == [] then 0 else 2 * ValueOfBits(bits[..|bits| - 1]) + (if bits[|bits| - 1] then 1 else 0)
  }

  function Differing(x: seq<bool>, y: seq<bool>): nat
    requires |x| == |y|
  {
    if x == [] then 0 else (if x[0] != y[0] then 1 else 0) + Differing(x[1..], y[1..])
  }

  lemma {:induction false} DifferingSnoc(x: seq<bool>, y: seq<bool>, a: bool, b: bool)
    requires |x| == |y|
    ensures Differing(x + [a], y + [b]) == Differing(x, y) + if a != b then 1 else 0
  {
    if x != [] {
      assert (x + [a])[1..] == x[1..] + [a] && (y + [b])[1..] == y[1..] + [b];
      DifferingSnoc(x[1..], y[1..], a, b);
    }
  }

  /** The distance of two hashes of the same grid is the number of places where their gradients differ. */
  lemma {:induction false} DistanceCountsGradients(x: seq<bool>, y: seq<bool>)
    requires |x| == |y|
    ensures Distance(ValueOfBits(x), ValueOfBits(y)) == Differing(x, y)
  {
    if x != [] {
      var n := |x| - 1;
      DistanceCountsGradients(x[..n], y[..n]);
      DifferingSnoc(x[..n], y[..n], x[n], y[n]);
      assert x == x[..n] + [x[n]] && y == y[..n] + [y[n]];
      assert ValueOfBits(x) / 2 == ValueOfBits(x[..n]) && ValueOfBits(y) / 2 == ValueOfBits(y[..n]);
      assert Distance(0, 0) == 0;
    }
  }
}
