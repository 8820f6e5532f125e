/** The sharding functions: PostgreSQL's partition hash on `bigint` and the SHA-1 example. */
module Sharding {
  import opened Text

  const WORD: int := 0x1_0000_0000
  const LONG: int := 0x1_0000_0000_0000_0000
  const PARTITION_HASH_SEED_HIGH: Word := 0x7A5B2236
  const PARTITION_HASH_SEED_LOW: Word := 0x7996DCFD

  /** `u32` and `u64`. */
  type Word = x: int | 0 <= x < 0x1_0000_0000
  type Long = x: int | 0 <= x < 0x1_0000_0000_0000_0000

  function Pow2(n: nat): (p: nat)
    ensures p > 0
  {
    if n == 0 then 1 else 2 * Pow2(n - 1)
  }

  /** Exclusive or of the low `w` bits of `x` and `y`. */
  function BitXor(w: nat, x: nat, y: nat): (r: nat)
    ensures r < Pow2(w)
  {
    if w == 0 then 0 else (x % 2 + y % 2) % 2 + 2 * BitXor(w - 1, x / 2, y / 2)
  }

  /** Inclusive or of the low `w` bits of `x` and `y`. */
  function BitOr(w: nat, x: nat, y: nat): (r: nat)
    ensures r < Pow2(w)
  {
    if w == 0 then 0 else (if x % 2 == 0 && y % 2 == 0 then 0 else 1) + 2 * BitOr(w - 1, x / 2, y / 2)
  }

  lemma {:induction false} Pow2Sum(m: nat, n: nat)
    ensures Pow2(m + n) == Pow2(m) * Pow2(n)
  {
    if m > 0 {
      Pow2Sum(m - 1, n);
      assert Pow2(m + n) == 2 * Pow2(m - 1 + n);
    }
  }

  lemma WordIsPow2()
    ensures Pow2(32) == WORD
  {
    assert Pow2(1) == 2;
    assert Pow2(2) == 4;
    Pow2Sum(2, 2);
    Pow2Sum(4, 4);
    Pow2Sum(8, 8);
    Pow2Sum(16, 16);
  }

  function Xor(x: Word, y: Word): Word {
    WordIsPow2();
    BitXor(32, x, y)
  }

  function Not(x: Word): Word {
    WORD - 1 - x
  }

  function Add(x: Word, y: Word): Word {
    (x + y) % WORD
  }

  function Sub(x: Word, y: Word): Word {
    (x - y) % WORD
  }

  /** `x << k`, bit by bit. */
  function ShiftLeft(x: Word, k: nat): Word
    decreases k
  {
    if k == 0 then x else ShiftLeft(x * 2 % WORD, k - 1)
  }

  /** `x >> k`, bit by bit. */
  function ShiftRight(x: Word, k: nat): Word
    decreases k
  {
    if k == 0 then x else ShiftRight(x / 2, k - 1)
  }

  /** Rotation to the left by `k` bits. */
  function Rot(x: Word, k: nat): Word
    requires 0 < k < 32
  {
    WordIsPow2();
    BitOr(32, ShiftLeft(x, k), ShiftRight(x, 32 - k))
  }

  lemma SplitBit(b: nat, h: nat)
    requires b < 2
    ensures (b + 2 * h) % 2 == b && (b + 2 * h) / 2 == h
  {
  }

  lemma BitTwice(x: nat, y: nat)
    requires x < 2 && y < 2
    ensures ((x + y) % 2 + y) % 2 == x
  {
  }

  lemma {:induction false} BitXorTwice(w: nat, x: nat, y: nat)
    requires x < Pow2(w)
    ensures BitXor(w, BitXor(w, x, y), y) == x
  {
    if w > 0 {
      var b, h := (x % 2 + y % 2) % 2, BitXor(w - 1, x / 2, y / 2);
      SplitBit(b, h);
      BitXorTwice(w - 1, x / 2, y / 2);
      BitTwice(x % 2, y % 2);
      assert BitXor(w, b + 2 * h, y) == (b + y % 2) % 2 + 2 * BitXor(w - 1, h, y / 2);
    }
  }

  /** Exclusive or with `y` leaves `x` alone only if no bit of `y` is set. */
  lemma {:induction false} BitXorFixed(w: nat, x: nat, y: nat)
    requires x < Pow2(w) && y < Pow2(w)
    ensures BitXor(w, x, y) == x <==> y == 0
  {
    if w > 0 {
      BitXorFixed(w - 1, x / 2, y / 2);
    }
  }

  lemma XorTwice(x: Word, y: Word)
    ensures Xor(Xor(x, y), y) == x
  {
    WordIsPow2();
    BitXorTwice(32, x, y);
  }

  // ---------------------------------------------------------------- mix and _final

  datatype Triple = Triple(a: Word, b: Word, c: Word)

  /** A third of a half of `mix`: `a` is stirred with `c`, then `c` absorbs `b`. */
  function MixRound(t: Triple, k: nat): Triple
    requires 0 < k < 32
  {
    Triple(Xor(Sub(t.a, t.c), Rot(t.c, k)), t.b, Add(t.c, t.b))
  }

  function UnMixRound(t: Triple, k: nat): Triple
    requires 0 < k < 32
  {
    var c := Sub(t.c, t.b);
    Triple(Add(Xor(t.a, Rot(c, k)), c), t.b, c)
  }

  /** The next round plays `b`, `c`, `a` in the places of `a`, `b`, `c`. */
  function Turn(t: Triple): Triple {
    Triple(t.b, t.c, t.a)
  }

  /** `mix`, as six rounds that hand the three roles around. */
  function Mixed(t: Triple): Triple {
    var t := Turn(MixRound(t, 4));
    var t := Turn(MixRound(t, 6));
    var t := Turn(MixRound(t, 8));
    var t := Turn(MixRound(t, 16));
    var t := Turn(MixRound(t, 19));
    Turn(MixRound(t, 4))
  }

  function UnTurn(t: Triple): Triple {
    Triple(t.c, t.a, t.b)
  }

  function UnMixed(t: Triple): Triple {
    var t := UnMixRound(UnTurn(t), 4);
    var t := UnMixRound(UnTurn(t), 19);
    var t := UnMixRound(UnTurn(t), 16);
    var t := UnMixRound(UnTurn(t), 8);
    var t := UnMixRound(UnTurn(t), 6);
    UnMixRound(UnTurn(t), 4)
  }

  lemma MixRoundInverse(t: Triple, k: nat)
    requires 0 < k < 32
    ensures UnMixRound(MixRound(t, k), k) == t
    ensures MixRound(UnMixRound(t, k), k) == t
  {
    StirInverse(t.a, t.c, Rot(t.c, k));
    AddSub(t.c, t.b);
    var c := Sub(t.c, t.b);
    StirInverse(t.a, c, Rot(c, k));
  }

  lemma AddSub(x: Word, y: Word)
    ensures Sub(Add(x, y), y) == x
    ensures Add(Sub(x, y), y) == x
  {
  }

  lemma StirInverse(x: Word, z: Word, r: Word)
    ensures Add(Xor(Xor(Sub(x, z), r), r), z) == x
    ensures Xor(Sub(Add(Xor(x, r), z), z), r) == x
  {
    XorTwice(Sub(x, z), r);
    XorTwice(x, r);
    AddSub(x, z);
    AddSub(Xor(x, r), z);
  }

  /** `mix` loses nothing: `UnMixed` takes every triple of words back. */
  lemma MixInverse(t: Triple)
    ensures UnMixed(Mixed(t)) == t
  {
    var t1 := Turn(MixRound(t, 4));
    var t2 := Turn(MixRound(t1, 6));
    var t3 := Turn(MixRound(t2, 8));
    var t4 := Turn(MixRound(t3, 16));
    var t5 := Turn(MixRound(t4, 19));
    MixRoundInverse(t, 4);
    MixRoundInverse(t1, 6);
    MixRoundInverse(t2, 8);
    MixRoundInverse(t3, 16);
    MixRoundInverse(t4, 19);
    MixRoundInverse(t5, 4);
  }

  /** And every triple is reached. */
  lemma UnMixInverse(t: Triple)
    ensures Mixed(UnMixed(t)) == t
  {
    var u1 := UnMixRound(UnTurn(t), 4);
    var u2 := UnMixRound(UnTurn(u1), 19);
    var u3 := UnMixRound(UnTurn(u2), 16);
    var u4 := UnMixRound(UnTurn(u3), 8);
    var u5 := UnMixRound(UnTurn(u4), 6);
    MixRoundInverse(UnTurn(t), 4);
    MixRoundInverse(UnTurn(u1), 19);
    MixRoundInverse(UnTurn(u2), 16);
    MixRoundInverse(UnTurn(u3), 8);
    MixRoundInverse(UnTurn(u4), 6);
    MixRoundInverse(UnTurn(u5), 4);
  }

  method Mix(a0: Word, b0: Word, c0: Word) returns (a: Word, b: Word, c: Word)
    ensures Triple(a, b, c) == Mixed(Triple(a0, b0, c0))
  {
    a, b, c := a0, b0, c0;
    a := Sub(a, c);
    a := Xor(a, Rot(c, 4));
    c := Add(c, b);

    b := Sub(b, a);
    b := Xor(b, Rot(a, 6));
    a := Add(a, c);

    c := Sub(c, b);
    c := Xor(c, Rot(b, 8));
    b := Add(b, a);

    a := Sub(a, c);
    a := Xor(a, Rot(c, 16));
    c := Add(c, b);

    b := Sub(b, a);
    b := Xor(b, Rot(a, 19));
    a := Add(a, c);

    c := Sub(c, b);
    c := Xor(c, Rot(b, 4));
    b := Add(b, a);
  }

  /** One step of `_final`: `x ^= y; x -= rot(y, k)`. */
  function Fold(x: Word, y: Word, k: nat): Word
    requires 0 < k < 32
  {
    Sub(Xor(x, y), Rot(y, k))
  }

  function UnFold(x: Word, y: Word, k: nat): Word
    requires 0 < k < 32
  {
    Xor(Add(x, Rot(y, k)), y)
  }

  function Finished(t: Triple): Triple {
    var c1 := Fold(t.c, t.b, 14);
    var a1 := Fold(t.a, c1, 11);
    var b1 := Fold(t.b, a1, 25);
    var c2 := Fold(c1, b1, 16);
    var a2 := Fold(a1, c2, 4);
    var b2 := Fold(b1, a2, 14);
    Triple(a2, b2, Fold(c2, b2, 24))
  }

  function UnFinished(t: Triple): Triple {
    var c2 := UnFold(t.c, t.b, 24);
    var b1 := UnFold(t.b, t.a, 14);
    var a1 := UnFold(t.a, c2, 4);
    var c1 := UnFold(c2, b1, 16);
    var b := UnFold(b1, a1, 25);
    var a := UnFold(a1, c1, 11);
    Triple(a, b, UnFold(c1, b, 14))
  }

  lemma FoldInverse(x: Word, y: Word, k: nat)
    requires 0 < k < 32
    ensures UnFold(Fold(x, y, k), y, k) == x
    ensures Fold(UnFold(x, y, k), y, k) == x
  {
    var r := Rot(y, k);
    XorTwice(x, y);
    AddSub(Xor(x, y), r);
    XorTwice(Add(x, r), y);
    AddSub(x, r);
  }

  /** `_final` loses nothing either. */
  lemma FinalInverse(t: Triple)
    ensures UnFinished(Finished(t)) == t
  {
    var c1 := Fold(t.c, t.b, 14);
    var a1 := Fold(t.a, c1, 11);
    var b1 := Fold(t.b, a1, 25);
    var c2 := Fold(c1, b1, 16);
    var a2 := Fold(a1, c2, 4);
    var b2 := Fold(b1, a2, 14);
    FoldInverse(t.c, t.b, 14);
    FoldInverse(t.a, c1, 11);
    FoldInverse(t.b, a1, 25);
    FoldInverse(c1, b1, 16);
    FoldInverse(a1, c2, 4);
    FoldInverse(b1, a2, 14);
    FoldInverse(c2, b2, 24);
  }

  lemma UnFinalInverse(t: Triple)
    ensures Finished(UnFinished(t)) == t
  {
    var c2 := UnFold(t.c, t.b, 24);
    var b1 := UnFold(t.b, t.a, 14);
    var a1 := UnFold(t.a, c2, 4);
    var c1 := UnFold(c2, b1, 16);
    var b := UnFold(b1, a1, 25);
    FoldInverse(t.c, t.b, 24);
    FoldInverse(t.b, t.a, 14);
    FoldInverse(t.a, c2, 4);
    FoldInverse(c2, b1, 16);
    FoldInverse(b1, a1, 25);
    FoldInverse(a1, c1, 11);
    FoldInverse(c1, b, 14);
  }

  method Final(a0: Word, b0: Word, c0: Word) returns (a: Word, b: Word, c: Word)
    ensures Triple(a, b, c) == Finished(Triple(a0, b0, c0))
  {
    a, b, c := a0, b0, c0;
    c := Xor(c, b);
    c := Sub(c, Rot(b, 14));
    a := Xor(a, c);
    a := Sub(a, Rot(c, 11));
    b := Xor(b, a);
    b := Sub(b, Rot(a, 25));
    c := Xor(c, b);
    c := Sub(c, Rot(b, 16));
    a := Xor(a, c);
    a := Sub(a, Rot(c, 4));
    b := Xor(b, a);
    b := Sub(b, Rot(a, 14));
    c := Xor(c, b);
    c := Sub(c, Rot(b, 24));
  }

  // ---------------------------------------------------------------- hashing a key

  const HASH_INIT: Word := 0x9e3779b9 + 4 + 3923095

  /** The state that `pg_u32_hash` has reached before it looks at the key. */
  function Seeded(): Triple {
    Mixed(Triple(Add(HASH_INIT, PARTITION_HASH_SEED_HIGH), Add(HASH_INIT, PARTITION_HASH_SEED_LOW), HASH_INIT))
  }

  function HashWord(k: Word): Long {
    var t := Finished(Seeded().(a := Add(Seeded().a, k)));
    t.b * WORD + t.c
  }

  method PgU32Hash(k: Word) returns (h: Long)
    ensures h == HashWord(k)
  {
    var a: Word := HASH_INIT;
    var b: Word := a;
    var c: Word := a;
    a := Add(a, PARTITION_HASH_SEED_HIGH);
    b := Add(b, PARTITION_HASH_SEED_LOW);
    a, b, c := Mix(a, b, c);
    a := Add(a, k);
    a, b, c := Final(a, b, c);
    h := b * WORD + c;
  }

  function Combine(a: Long, b: Long): Long {
    LongIsPow2();
    BitXor(64, a, (b + 0x49a0f4dd15e5a8e3 + a * Pow2(54) % LONG + a / 128) % LONG)
  }

  lemma LongIsPow2()
    ensures Pow2(64) == LONG
  {
    WordIsPow2();
    Pow2Sum(32, 32);
  }

  lemma {:induction false} BitXorZero(w: nat, y: nat)
    requires y < Pow2(w)
    ensures BitXor(w, 0, y) == y
  {
    if w > 0 {
      BitXorZero(w - 1, y / 2);
    }
  }

  /** The only use the hash makes of `combine`: both shifts and the exclusive or vanish. */
  lemma CombineWithZero(b: Long)
    ensures Combine(0, b) == (b + 0x49a0f4dd15e5a8e3) % LONG
  {
    LongIsPow2();
    BitXorZero(64, (b + 0x49a0f4dd15e5a8e3) % LONG);
  }

  predicate IsI64(key: int) {
    I64_MIN <= key <= I64_MAX
  }

  function LowHalf(key: int): Word {
    key % WORD
  }

  /** `(key >> 32) as u32`, an arithmetic shift. */
  function HighHalf(key: int): Word {
    key / WORD % WORD
  }

  /** The word that stands for a `bigint` key: equal `int` and `bigint` values give the same word. */
  function KeyWord(key: int): Word {
    Xor(LowHalf(key), Folded(key))
  }

  /** The high half, complemented for a negative key. */
  function Folded(key: int): Word {
    if key >= 0 then HighHalf(key) else Not(HighHalf(key))
  }

  /** A sharding function is what it makes of a key, before reduction to a shard number. */
  type ShardingFunction = int -> nat

  function BigintHash(key: int): Long {
    Combine(0, HashWord(KeyWord(key)))
  }

  const PG_BIGINT_HASH: ShardingFunction := (key: int) => BigintHash(key)

  datatype Sharder = Sharder(shards: nat, hash: ShardingFunction)

  /** Which shard holds `key`. */
  function Shard(s: Sharder, key: int): (r: nat)
    requires s.shards > 0
    ensures r < s.shards
  {
    s.hash(key) % s.shards
  }

  lemma FoldedIsZero(key: int)
    requires IsI64(key)
    ensures Folded(key) == 0 <==> -WORD <= key < WORD
  {
    var h := key / WORD;
    assert -0x8000_0000 <= h < 0x8000_0000;
    assert key >= 0 ==> HighHalf(key) == h;
    assert key < 0 ==> HighHalf(key) == h + WORD;
  }

  /**
   * Folding the high half in leaves the low 32 bits of a key alone exactly for the keys of
   * absolute value up to 2^32, which covers every `int` key, positive or negative.
   */
  lemma KeyWordIsLowHalf(key: int)
    requires IsI64(key)
    ensures KeyWord(key) == LowHalf(key) <==> -WORD <= key < WORD
  {
    WordIsPow2();
    BitXorFixed(32, LowHalf(key), Folded(key));
    FoldedIsZero(key);
  }

  /** A `bigint` key in the `int` range is placed by hashing its low 32 bits directly. */
  lemma IntKeysAgree(shards: nat, key: int)
    requires shards > 0
    requires -0x8000_0000 <= key < 0x8000_0000
    ensures Shard(Sharder(shards, PG_BIGINT_HASH), key) == Combine(0, HashWord(key % WORD)) % shards
  {
    KeyWordIsLowHalf(key);
  }
}
