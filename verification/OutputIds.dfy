/** Single-bit identifiers of outputs in a 64-bit word (src/output.c). */
module OutputIds {

  type Word = bv64

  const ALL: Word := 0xffff_ffff_ffff_ffff

  /** Exactly one bit of x is set. */
  predicate SingleBit(x: Word) {
    x != 0 && x & (x - 1) == 0
  }

  function RotateLeft(x: Word): Word {
    (x << 1) | (x >> 63)
  }

  function RotateBy(x: Word, n: nat): Word {
    if n == 0 then x else RotateLeft(RotateBy(x, n - 1))
  }

  lemma RotateKeepsSingle(x: Word)
    requires SingleBit(x)
    ensures SingleBit(RotateLeft(x))
  {
  }

  lemma {:induction false} RotateByKeepsSingle(x: Word, n: nat)
    requires SingleBit(x)
    ensures SingleBit(RotateBy(x, n))
  {
    if n > 0 {
      RotateByKeepsSingle(x, n - 1);
      RotateKeepsSingle(RotateBy(x, n - 1));
    }
  }

  // ---- positions ----

  /** How many bits lie below the single bit x. */
  function Position(x: Word): nat {
    (if x & 0xffff_ffff_0000_0000 != 0 then 32 else 0)
    + (if x & 0xffff_0000_ffff_0000 != 0 then 16 else 0)
    + (if x & 0xff00_ff00_ff00_ff00 != 0 then 8 else 0)
    + (if x & 0xf0f0_f0f0_f0f0_f0f0 != 0 then 4 else 0)
    + (if x & 0xcccc_cccc_cccc_cccc != 0 then 2 else 0)
    + (if x & 0xaaaa_aaaa_aaaa_aaaa != 0 then 1 else 0)
  }

  lemma PositionBelow64(x: Word)
    ensures Position(x) < 64
  {
  }

  /** A rotation moves the bit one place up, from the top to the bottom. */
  lemma PositionRotates(x: Word)
    requires SingleBit(x)
    ensures Position(RotateLeft(x)) == if Position(x) == 63 then 0 else Position(x) + 1
  {
  }

  lemma PositionTells(x: Word, y: Word)
    requires SingleBit(x) && SingleBit(y) && Position(x) == Position(y)
    ensures x == y
  {
  }

  /** p + n, going round at 64. */
  function Around(p: nat, n: nat): nat {
    if p + n < 64 then p + n else p + n - 64
  }

  lemma {:induction false} PositionOfRotation(x: Word, n: nat)
    requires SingleBit(x) && n < 64
    ensures Position(RotateBy(x, n)) == Around(Position(x), n)
  {
    PositionBelow64(x);
    if n > 0 {
      PositionOfRotation(x, n - 1);
      RotateByKeepsSingle(x, n - 1);
      PositionRotates(RotateBy(x, n - 1));
    }
  }

  /** Every single bit is reached from every other one by fewer than 64 rotations. */
  lemma RotationReaches(from: Word, to: Word) returns (n: nat)
    requires SingleBit(from) && SingleBit(to)
    ensures n < 64 && RotateBy(from, n) == to
  {
    PositionBelow64(from);
    PositionBelow64(to);
    n := if Position(from) <= Position(to) then Position(to) - Position(from) else Position(to) + 64 - Position(from);
    PositionOfRotation(from, n);
    RotateByKeepsSingle(from, n);
    PositionTells(RotateBy(from, n), to);
  }

  // ---- free bits ----

  predicate Free(from: Word, n: nat, used: Word) {
    RotateBy(from, n) & used == 0
  }

  /** The lowest bit that is not set. */
  function LowestFree(used: Word): Word {
    !used & (used + 1)
  }

  lemma LowestFreeIsFree(used: Word)
    requires used != ALL
    ensures SingleBit(LowestFree(used)) && LowestFree(used) & used == 0
  {
  }

  /** Fewer than 64 rotations of a single bit find a free bit, unless none is free. */
  lemma FreeWithin64(from: Word, used: Word)
    requires SingleBit(from) && used != ALL
    ensures exists m :: 0 <= m < 64 && Free(from, m, used)
  {
    LowestFreeIsFree(used);
    var n := RotationReaches(from, LowestFree(used));
    assert Free(from, n, used);
  }
}
