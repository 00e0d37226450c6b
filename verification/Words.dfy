/** 64-bit machine words as integers, and equality modulo 2^64. */
module Words {

  const TWO63 := 0x8000_0000_0000_0000
  const TWO64 := 0x1_0000_0000_0000_0000

  /** The signed words. */
  type Int64 = x: int | -TWO63 <= x < TWO63

  /** The unsigned word that a computation leaves. */
  function U64(x: int): (r: nat)
    ensures r < TWO64 && Congruent(r, x)
  {
    WrapCongruent(x);
    x % TWO64
  }

  /** The signed word that a computation leaves. */
  function S64(x: int): (r: int)
    ensures -TWO63 <= r < TWO63 && Congruent(r, x)
  {
    WrapCongruent(x);
    var u := x % TWO64;
    if u < TWO63 then u else Shift(u, x); u - TWO64
  }

  predicate Congruent(x: int, y: int) {
    (x - y) % TWO64 == 0
  }

  lemma WrapCongruent(x: int)
    ensures Congruent(x % TWO64, x)
  {
    assert x == TWO64 * (x / TWO64) + x % TWO64;
  }

  lemma Shift(u: int, x: int)
    requires Congruent(u, x)
    ensures Congruent(u - TWO64, x)
  {
  }

  lemma CongruentAdd(x: int, y: int, z: int, w: int)
    requires Congruent(x, y) && Congruent(z, w)
    ensures Congruent(x + z, y + w) && Congruent(x - z, y - w)
  {
  }

  lemma CongruentTrans(x: int, y: int, z: int)
    requires Congruent(x, y) && Congruent(y, z)
    ensures Congruent(x, z)
  {
  }

  /** Congruent values closer than 2^64 are equal. */
  lemma CongruentNear(x: int, y: int)
    requires Congruent(x, y) && -TWO64 < x - y < TWO64
    ensures x == y
  {
  }

  lemma CongruentSub(x: int, y: int, z: int, w: int)
    requires Congruent(x, y) && Congruent(z, w)
    ensures Congruent(x - z, y - w)
  {
    CongruentAdd(x, y, z, w);
  }

  lemma CongruentPlus(k: int, x: int, y: int)
    requires Congruent(x, y)
    ensures Congruent(k + x, k + y)
  {
  }

  lemma CongruentRefl(x: int)
    ensures Congruent(x, x)
  {
  }

  lemma CongruentSum(x: int, y: int, z: int, w: int)
    requires Congruent(x, y) && Congruent(z, w)
    ensures Congruent(x + z, y + w)
  {
    CongruentAdd(x, y, z, w);
  }

  lemma CongruentBetween(x: int, y: int, m: int)
    requires Congruent(x, m) && Congruent(y, m) && 0 <= x < TWO64 && 0 <= y < TWO64
    ensures x == y
  {
  }

  lemma U64Small(x: int)
    requires 0 <= x < TWO64
    ensures U64(x) == x
  {
  }

  lemma S64Small(x: int)
    requires -TWO63 <= x < TWO63
    ensures S64(x) == x
  {
  }

  lemma CongruentProduct(x: int, y: int, z: int, w: int)
    requires Congruent(x, y) && Congruent(z, w)
    ensures Congruent(x * z, y * w)
  {
    var a, b := (x - y) / TWO64, (z - w) / TWO64;
    assert x - y == a * TWO64 && z - w == b * TWO64;
    var k := a * z + y * b;
    assert x * z - y * w == (x - y) * z + y * (z - w);
    assert (a * TWO64) * z + y * (b * TWO64) == k * TWO64;
    MultipleCongruent(x * z, y * w, k);
  }

  lemma MultipleCongruent(x: int, y: int, k: int)
    requires x - y == k * TWO64
    ensures Congruent(x, y)
  {
  }

  /** The signed word is the only one in range. */
  lemma S64Unique(v: int, x: int)
    requires -TWO63 <= v < TWO63 && Congruent(v, x)
    ensures v == S64(x)
  {
    CongruentSub(v, x, S64(x), x);
    CongruentNear(v - S64(x), 0);
  }
}
