/**
 * The hand-written SHA-256 of the web client (web/src/insecure-context.ts), against
 * FIPS 180-4. The code works on JavaScript numbers: bit operators yield signed 32-bit
 * values, sums are left unreduced, and only `>>> 0` and the typed arrays truncate.
 */
module Sha256 {

  const TWO32: int := 0x1_0000_0000

  type Word = x: int | 0 <= x < 0x1_0000_0000
  type Byte = x: int | 0 <= x < 0x100

  // ---------------------------------------------------------------- words, section 3 of FIPS 180-4

  function And(x: Word, y: Word): Word { ((x as bv32) & (y as bv32)) as Word }
  function Or(x: Word, y: Word): Word { ((x as bv32) | (y as bv32)) as Word }
  function Xor(x: Word, y: Word): Word { ((x as bv32) ^ (y as bv32)) as Word }
  function Not(x: Word): Word { (!(x as bv32)) as Word }
  function Shl(x: Word, n: nat): Word
    requires n < 32
  {
    ((x as bv32) << n) as Word
  }

  /** SHR in section 3.2. */
  function Shr(x: Word, n: nat): Word
    requires n < 32
  {
    ((x as bv32) >> n) as Word
  }

  /** ROTR in section 3.2. */
  function Rotr(x: Word, n: nat): Word
    requires 0 < n < 32
  {
    Or(Shr(x, n), Shl(x, 32 - n))
  }

  /** Addition modulo 2^32. */
  function Add(x: Word, y: Word): Word { (x + y) % TWO32 }

  // ---------------------------------------------------------------- section 4.1.2

  function Ch(x: Word, y: Word, z: Word): Word { Xor(And(x, y), And(Not(x), z)) }
  function Maj(x: Word, y: Word, z: Word): Word { Xor(Xor(And(x, y), And(x, z)), And(y, z)) }
  function BigSigma0(x: Word): Word { Xor(Xor(Rotr(x, 2), Rotr(x, 13)), Rotr(x, 22)) }
  function BigSigma1(x: Word): Word { Xor(Xor(Rotr(x, 6), Rotr(x, 11)), Rotr(x, 25)) }
  function SmallSigma0(x: Word): Word { Xor(Xor(Rotr(x, 7), Rotr(x, 18)), Shr(x, 3)) }
  function SmallSigma1(x: Word): Word { Xor(Xor(Rotr(x, 17), Rotr(x, 19)), Shr(x, 10)) }

  // ---------------------------------------------------------------- section 5: preprocessing

  function BigEndian32(x: Word): (bytes: seq<Byte>)
    ensures |bytes| == 4
  {
    [x / 0x100_0000, x / 0x1_0000 % 0x100, x / 0x100 % 0x100, x % 0x100]
  }

  function WordAt(bytes: seq<Byte>, i: nat): Word
    requires i + 4 <= |bytes|
  {
    (bytes[i] as int) * 0x100_0000 + (bytes[i + 1] as int) * 0x1_0000 + (bytes[i + 2] as int) * 0x100 + bytes[i + 3] as int
  }

  lemma WordRoundTrip(x: Word)
    ensures WordAt(BigEndian32(x), 0) == x
  {
    var y := x / 0x100;
    var z := y / 0x100;
    assert z / 0x100 == x / 0x100_0000 && z % 0x100 == x / 0x1_0000 % 0x100 && y % 0x100 == x / 0x100 % 0x100;
    assert x == 0x100 * y + x % 0x100 && y == 0x100 * z + y % 0x100 && z == 0x100 * (z / 0x100) + z % 0x100;
  }

  /** The 64-bit big-endian length field. */
  function BigEndian64(bits: nat): (bytes: seq<Byte>)
    requires bits < TWO32 * TWO32
    ensures |bytes| == 8
  {
    BigEndian32(bits / TWO32) + BigEndian32(bits % TWO32)
  }

  lemma BigEndian64Injective(x: nat, y: nat)
    requires x < TWO32 * TWO32 && y < TWO32 * TWO32 && BigEndian64(x) == BigEndian64(y)
    ensures x == y
  {
    var a, b := BigEndian64(x), BigEndian64(y);
    assert a[..4] == BigEndian32(x / TWO32) && b[..4] == BigEndian32(y / TWO32);
    assert a[4..] == BigEndian32(x % TWO32) && b[4..] == BigEndian32(y % TWO32);
    WordRoundTrip(x / TWO32);
    WordRoundTrip(y / TWO32);
    WordRoundTrip(x % TWO32);
    WordRoundTrip(y % TWO32);
  }

  /** Messages the standard admits: fewer than 2^64 bits. */
  predicate Admissible(message: seq<Byte>) { |message| * 8 < TWO32 * TWO32 }

  /** With `zeros` zero bytes, the message, the 1 bit and the length field fill whole blocks. */
  predicate FillsBlocks(length: nat, zeros: nat) { (length + 1 + zeros + 8) % 64 == 0 }

  /** The smallest number of zero bytes that completes the last block. */
  function ZeroCount(length: nat): (zeros: nat)
    ensures zeros < 64 && FillsBlocks(length, zeros)
    ensures forall k: nat :: FillsBlocks(length, k) ==> zeros <= k
  {
    var zeros := (119 - length % 64) % 64;
    assert length == 64 * (length / 64) + length % 64;
    assert FillsBlocks(length, zeros);
    FewestZeros(length, zeros);
    zeros
  }

  lemma FewestZeros(length: nat, zeros: nat)
    requires zeros < 64 && FillsBlocks(length, zeros)
    ensures forall k: nat :: FillsBlocks(length, k) ==> zeros <= k
  {
    var y := length + 9 + zeros;
    assert y == 64 * (y / 64);
    forall k: nat | FillsBlocks(length, k) ensures zeros <= k {
      var x := length + 9 + k;
      assert x == 64 * (x / 64);
    }
  }

  /** The padded message of section 5.1.1: one bit 1, the fewest zeros, and the bit length. */
  function Padded(message: seq<Byte>): (padded: seq<Byte>)
    requires Admissible(message)
    ensures |padded| % 64 == 0 && |padded| == |message| + 1 + ZeroCount(|message|) + 8
  {
    message + [0x80] + seq(ZeroCount(|message|), _ => 0) + BigEndian64(|message| * 8)
  }

  /** Different messages are padded differently. */
  lemma PaddingInjective(x: seq<Byte>, y: seq<Byte>)
    requires Admissible(x) && Admissible(y) && Padded(x) == Padded(y)
    ensures x == y
  {
    var a, b := Padded(x), Padded(y);
    assert a[|a| - 8..] == BigEndian64(|x| * 8) && b[|b| - 8..] == BigEndian64(|y| * 8);
    BigEndian64Injective(|x| * 8, |y| * 8);
    assert a[..|x|] == x && b[..|y|] == y;
  }

  // ---------------------------------------------------------------- section 6.2.2: hash computation

  /** The message schedule of a block, step 1. */
  function Schedule(block: seq<Byte>, t: nat): Word
    requires |block| == 64 && t < 64
  {
    if t < 16 then WordAt(block, t * 4)
    else Add(Add(Add(SmallSigma1(Schedule(block, t - 2)), Schedule(block, t - 7)), SmallSigma0(Schedule(block, t - 15))), Schedule(block, t - 16))
  }

  /** The working variables, step 2. */
  datatype Vars = Vars(a: Word, b: Word, c: Word, d: Word, e: Word, f: Word, g: Word, h: Word)

  function T1(v: Vars, k: Word, w: Word): Word { Add(Add(Add(Add(v.h, BigSigma1(v.e)), Ch(v.e, v.f, v.g)), k), w) }
  function T2(v: Vars): Word { Add(BigSigma0(v.a), Maj(v.a, v.b, v.c)) }

  /** One round of step 3. */
  function Round(v: Vars, k: Word, w: Word): Vars { Vars(Add(T1(v, k, w), T2(v)), v.a, v.b, v.c, Add(v.d, T1(v, k, w)), v.e, v.f, v.g) }

  function Rounds(k: seq<Word>, block: seq<Byte>, v: Vars, t: nat): Vars
    requires |k| == 64 && |block| == 64 && t <= 64
  {
    if t == 0 then v else Round(Rounds(k, block, v, t - 1), k[t - 1], Schedule(block, t - 1))
  }

  function VarsOf(h: seq<Word>): Vars
    requires |h| == 8
  {
    Vars(h[0], h[1], h[2], h[3], h[4], h[5], h[6], h[7])
  }

  /** The intermediate hash after one block, step 4. */
  function Compressed(k: seq<Word>, h: seq<Word>, block: seq<Byte>): (next: seq<Word>)
    requires |k| == 64 && |h| == 8 && |block| == 64
    ensures |next| == 8
  {
    var v := Rounds(k, block, VarsOf(h), 64);
    [Add(h[0], v.a), Add(h[1], v.b), Add(h[2], v.c), Add(h[3], v.d), Add(h[4], v.e), Add(h[5], v.f), Add(h[6], v.g), Add(h[7], v.h)]
  }

  const INITIAL: seq<Word> := [0x6a09e667, 0xbb67ae85, 0x3c6ef372, 0xa54ff53a, 0x510e527f, 0x9b05688c, 0x1f83d9ab, 0x5be0cd19]

  function Hash(k: seq<Word>, padded: seq<Byte>, blocks: nat): (h: seq<Word>)
    requires |k| == 64 && blocks * 64 <= |padded|
    ensures |h| == 8
  {
    if blocks == 0 then INITIAL else Compressed(k, Hash(k, padded, blocks - 1), padded[(blocks - 1) * 64..blocks * 64])
  }

  function Concatenated(words: seq<Word>): (bytes: seq<Byte>)
    ensures |bytes| == 4 * |words|
  {
    if words == [] then [] else Concatenated(words[..|words| - 1]) + BigEndian32(words[|words| - 1])
  }

  /** The message digest, given the table of constants of section 4.2.2. */
  function Digest(k: seq<Word>, message: seq<Byte>): (digest: seq<Byte>)
    requires |k| == 64 && Admissible(message)
    ensures |digest| == 32
  {
    Concatenated(Hash(k, Padded(message), |Padded(message)| / 64))
  }

  // ---------------------------------------------------------------- JavaScript numbers

  /** Integers a double holds exactly. */
  predicate Safe(x: int) { -0x1F_FFFF_FFFF_FFFF <= x <= 0x1F_FFFF_FFFF_FFFF }

  /** Number addition; exact within the safe integers. */
  function JsAdd(x: int, y: int): int
    requires Safe(x) && Safe(y) && Safe(x + y)
  {
    x + y
  }

  function ToUint32(x: int): Word { x % TWO32 }

  function ToInt32(x: int): (r: int)
    ensures -0x8000_0000 <= r < 0x8000_0000 && ToUint32(r) == ToUint32(x)
  {
    var u := x % TWO32;
    if u < 0x8000_0000 then u else u - TWO32
  }

  /** `&`, `|`, `^`, `~` and `<<` yield signed 32-bit integers, `>>>` an unsigned one. */
  function JsAnd(x: int, y: int): int { ToInt32(And(ToUint32(x), ToUint32(y))) }
  function JsOr(x: int, y: int): int { ToInt32(Or(ToUint32(x), ToUint32(y))) }
  function JsXor(x: int, y: int): int { ToInt32(Xor(ToUint32(x), ToUint32(y))) }
  function JsNot(x: int): int { ToInt32(Not(ToUint32(x))) }
  function JsShl(x: int, n: nat): int
    requires n < 32
  {
    ToInt32(Shl(ToUint32(x), n))
  }

  function JsShr(x: int, n: nat): Word
    requires n < 32
  {
    Shr(ToUint32(x), n)
  }

  /** The local `rotr`. */
  function JsRotr(x: int, n: nat): int
    requires 0 < n < 32
  {
    JsOr(JsShr(x, n), JsShl(x, 32 - n))
  }

  predicate Signed(x: int) { -0x8000_0000 <= x < 0x8000_0000 }

  /** A signed intermediate stands for a word: equal modulo 2^32. */
  predicate StandsFor(x: int, w: Word) { Signed(x) && ToUint32(x) == w }

  lemma WordItself(x: Word)
    ensures ToUint32(x) == x
  {
  }

  lemma RotrStands(x: Word, n: nat)
    requires 0 < n < 32
    ensures StandsFor(JsRotr(x, n), Rotr(x, n))
  {
    hide Or, Shr, Shl, ToUint32, ToInt32;
    WordItself(x);
    WordItself(Shr(x, n));
    WordItself(Shl(x, 32 - n));
    WordItself(Rotr(x, n));
  }

  lemma XorStands(x: int, y: int, a: Word, b: Word)
    requires ToUint32(x) == a && ToUint32(y) == b
    ensures StandsFor(JsXor(x, y), Xor(a, b))
  {
    WordItself(Xor(a, b));
  }

  lemma AndStands(x: int, y: int, a: Word, b: Word)
    requires ToUint32(x) == a && ToUint32(y) == b
    ensures StandsFor(JsAnd(x, y), And(a, b))
  {
    WordItself(And(a, b));
  }

  lemma NotStands(x: int, a: Word)
    requires ToUint32(x) == a
    ensures StandsFor(JsNot(x), Not(a))
  {
    WordItself(Not(a));
  }

  function JsSigma(x: Word, i: nat, j: nat, k: nat): int
    requires 0 < i < 32 && 0 < j < 32 && 0 < k < 32
  {
    JsXor(JsXor(JsRotr(x, i), JsRotr(x, j)), JsRotr(x, k))
  }

  function JsSchedule(x: Word, i: nat, j: nat, k: nat): int
    requires 0 < i < 32 && 0 < j < 32 && 0 < k < 32
  {
    JsXor(JsXor(JsRotr(x, i), JsRotr(x, j)), JsShr(x, k))
  }

  lemma SigmaStands(x: Word, i: nat, j: nat, k: nat)
    requires 0 < i < 32 && 0 < j < 32 && 0 < k < 32
    ensures StandsFor(JsSigma(x, i, j, k), Xor(Xor(Rotr(x, i), Rotr(x, j)), Rotr(x, k)))
    ensures StandsFor(JsSchedule(x, i, j, k), Xor(Xor(Rotr(x, i), Rotr(x, j)), Shr(x, k)))
  {
    hide StandsFor, JsRotr, Rotr, JsXor, Xor, ToUint32;
    RotrStands(x, i);
    RotrStands(x, j);
    RotrStands(x, k);
    WordItself(x);
    WordItself(Shr(x, k));
    Standing(JsRotr(x, i), Rotr(x, i));
    Standing(JsRotr(x, j), Rotr(x, j));
    Standing(JsRotr(x, k), Rotr(x, k));
    XorStands(JsRotr(x, i), JsRotr(x, j), Rotr(x, i), Rotr(x, j));
    var first := JsXor(JsRotr(x, i), JsRotr(x, j));
    Standing(first, Xor(Rotr(x, i), Rotr(x, j)));
    XorStands(first, JsRotr(x, k), Xor(Rotr(x, i), Rotr(x, j)), Rotr(x, k));
    XorStands(first, JsShr(x, k), Xor(Rotr(x, i), Rotr(x, j)), Shr(x, k));
  }

  lemma Standing(x: int, w: Word)
    requires StandsFor(x, w)
    ensures ToUint32(x) == w && Signed(x)
  {
  }

  lemma SigmasStand(x: Word)
    ensures StandsFor(JsSigma(x, 2, 13, 22), BigSigma0(x)) && StandsFor(JsSigma(x, 6, 11, 25), BigSigma1(x))
    ensures StandsFor(JsSchedule(x, 7, 18, 3), SmallSigma0(x)) && StandsFor(JsSchedule(x, 17, 19, 10), SmallSigma1(x))
  {
    hide StandsFor, JsSigma, JsSchedule, Xor, Rotr, Shr;
    SigmaStands(x, 2, 13, 22);
    SigmaStands(x, 6, 11, 25);
    SigmaStands(x, 7, 18, 3);
    SigmaStands(x, 17, 19, 10);
  }

  function JsCh(e: Word, f: Word, g: Word): int { JsXor(JsAnd(e, f), JsAnd(JsNot(e), g)) }
  function JsMaj(a: Word, b: Word, c: Word): int { JsXor(JsXor(JsAnd(a, b), JsAnd(a, c)), JsAnd(b, c)) }

  lemma ChMajStand(x: Word, y: Word, z: Word)
    ensures StandsFor(JsCh(x, y, z), Ch(x, y, z)) && StandsFor(JsMaj(x, y, z), Maj(x, y, z))
  {
    hide JsXor, Xor, JsAnd, And, JsNot, Not;
    WordItself(x);
    WordItself(y);
    WordItself(z);
    NotStands(x, x);
    AndStands(x, y, x, y);
    AndStands(x, z, x, z);
    AndStands(y, z, y, z);
    AndStands(JsNot(x), z, Not(x), z);
    XorStands(JsAnd(x, y), JsAnd(JsNot(x), z), And(x, y), And(Not(x), z));
    XorStands(JsAnd(x, y), JsAnd(x, z), And(x, y), And(x, z));
    XorStands(JsXor(JsAnd(x, y), JsAnd(x, z)), JsAnd(y, z), Xor(And(x, y), And(x, z)), And(y, z));
  }

  // ---------------------------------------------------------------- delayed reduction

  lemma AddMod(x: int, y: int)
    ensures ToUint32(x + y) == Add(ToUint32(x), ToUint32(y))
  {
    assert x == TWO32 * (x / TWO32) + x % TWO32 && y == TWO32 * (y / TWO32) + y % TWO32;
    var q := x / TWO32 + y / TWO32;
    assert x + y == TWO32 * q + (x % TWO32 + y % TWO32);
    ModShift(q, x % TWO32 + y % TWO32);
  }

  lemma ModShift(q: int, r: int)
    ensures (TWO32 * q + r) % TWO32 == r % TWO32
  {
  }

  /** `hh + S1 + ch + k + w`, unreduced. */
  function JsT1(v: Vars, k: Word, w: Word): (t: int)
    ensures -0x2_0000_0000 <= t < 0x4_0000_0000
  {
    assert Signed(JsSigma(v.e, 6, 11, 25)) && Signed(JsCh(v.e, v.f, v.g));
    JsAdd(JsAdd(JsAdd(JsAdd(v.h, JsSigma(v.e, 6, 11, 25)), JsCh(v.e, v.f, v.g)), k), w)
  }

  function JsT2(v: Vars): (t: int)
    ensures -0x1_0000_0000 <= t < 0x1_0000_0000
  {
    assert Signed(JsSigma(v.a, 2, 13, 22)) && Signed(JsMaj(v.a, v.b, v.c));
    JsAdd(JsSigma(v.a, 2, 13, 22), JsMaj(v.a, v.b, v.c))
  }

  lemma T1Sum(v: Vars, k: Word, w: Word)
    ensures JsT1(v, k, w) == v.h + JsSigma(v.e, 6, 11, 25) + JsCh(v.e, v.f, v.g) + k + w
    ensures JsT2(v) == JsSigma(v.a, 2, 13, 22) + JsMaj(v.a, v.b, v.c)
  {
    hide JsSigma, JsCh, JsMaj;
  }

  lemma T1Mod(v: Vars, k: Word, w: Word)
    ensures ToUint32(v.h + JsSigma(v.e, 6, 11, 25) + JsCh(v.e, v.f, v.g) + k + w)
         == Add(Add(Add(Add(v.h, BigSigma1(v.e)), Ch(v.e, v.f, v.g)), k), w)
  {
    hide *;
    var s, c := JsSigma(v.e, 6, 11, 25), JsCh(v.e, v.f, v.g);
    SigmasStand(v.e);
    ChMajStand(v.e, v.f, v.g);
    Standing(s, BigSigma1(v.e));
    Standing(c, Ch(v.e, v.f, v.g));
    WordItself(v.h);
    WordItself(k);
    WordItself(w);
    AddMod(v.h, s);
    AddMod(v.h + s, c);
    AddMod(v.h + s + c, k);
    AddMod(v.h + s + c + k, w);
  }

  lemma T2Mod(v: Vars)
    ensures ToUint32(JsSigma(v.a, 2, 13, 22) + JsMaj(v.a, v.b, v.c)) == Add(BigSigma0(v.a), Maj(v.a, v.b, v.c))
  {
    hide *;
    var s, m := JsSigma(v.a, 2, 13, 22), JsMaj(v.a, v.b, v.c);
    SigmasStand(v.a);
    ChMajStand(v.a, v.b, v.c);
    Standing(s, BigSigma0(v.a));
    Standing(m, Maj(v.a, v.b, v.c));
    AddMod(s, m);
  }

  /** The unreduced temporaries are those of the standard, modulo 2^32. */
  lemma TemporariesReduce(v: Vars, k: Word, w: Word)
    ensures ToUint32(JsT1(v, k, w)) == T1(v, k, w) && ToUint32(JsT2(v)) == T2(v)
  {
    hide ToUint32, Add, JsT1, JsT2, BigSigma0, BigSigma1, Ch, Maj, JsSigma, JsCh, JsMaj;
    T1Sum(v, k, w);
    T1Mod(v, k, w);
    T2Mod(v);
  }

  /** The round as the code computes it: truncated only where `>>> 0` stands. */
  function JsRound(v: Vars, k: Word, w: Word): Vars {
    var t1, t2 := JsT1(v, k, w), JsT2(v);
    Vars(JsShr(JsAdd(t1, t2), 0), v.a, v.b, v.c, JsShr(JsAdd(v.d, t1), 0), v.e, v.f, v.g)
  }

  lemma ShrNothing(x: int)
    ensures JsShr(x, 0) == ToUint32(x)
  {
  }

  /** Signed intermediates and late truncation compute the round of the standard. */
  lemma RoundRefines(v: Vars, k: Word, w: Word)
    ensures JsRound(v, k, w) == Round(v, k, w)
  {
    hide JsT1, JsT2, T1, T2, JsShr, ToUint32, Add;
    TemporariesReduce(v, k, w);
    var t1, t2 := JsT1(v, k, w), JsT2(v);
    ShrNothing(JsAdd(t1, t2));
    ShrNothing(JsAdd(v.d, t1));
    AddMod(t1, t2);
    AddMod(v.d, t1);
    WordItself(v.d);
  }

  /** `w[i - 16] + s0 + w[i - 7] + s1`, stored into a Uint32Array. */
  function JsNext(w16: Word, w15: Word, w7: Word, w2: Word): Word {
    var s0, s1 := JsSchedule(w15, 7, 18, 3), JsSchedule(w2, 17, 19, 10);
    assert Signed(s0) && Signed(s1);
    ToUint32(JsAdd(JsAdd(JsAdd(w16, s0), w7), s1))
  }

  lemma NextRefines(w16: Word, w15: Word, w7: Word, w2: Word)
    ensures JsNext(w16, w15, w7, w2) == Add(Add(Add(SmallSigma1(w2), w7), SmallSigma0(w15)), w16)
  {
    hide ToUint32, Add, SmallSigma0, SmallSigma1, JsSchedule, JsNext;
    NextSum(w16, w15, w7, w2);
    NextMod(w16, w15, w7, w2);
    SumOrder(w16, SmallSigma0(w15), w7, SmallSigma1(w2));
  }

  lemma NextSum(w16: Word, w15: Word, w7: Word, w2: Word)
    ensures JsNext(w16, w15, w7, w2) == ToUint32(w16 + JsSchedule(w15, 7, 18, 3) + w7 + JsSchedule(w2, 17, 19, 10))
  {
    hide JsSchedule;
  }

  lemma NextMod(w16: Word, w15: Word, w7: Word, w2: Word)
    ensures ToUint32(w16 + JsSchedule(w15, 7, 18, 3) + w7 + JsSchedule(w2, 17, 19, 10))
         == Add(Add(Add(w16, SmallSigma0(w15)), w7), SmallSigma1(w2))
  {
    hide *;
    var s0, s1 := JsSchedule(w15, 7, 18, 3), JsSchedule(w2, 17, 19, 10);
    SigmasStand(w15);
    SigmasStand(w2);
    Standing(s0, SmallSigma0(w15));
    Standing(s1, SmallSigma1(w2));
    WordItself(w16);
    WordItself(w7);
    AddMod(w16, s0);
    AddMod(w16 + s0, w7);
    AddMod(w16 + s0 + w7, s1);
  }

  lemma SumOrder(x: Word, a: Word, y: Word, b: Word)
    ensures Add(Add(Add(x, a), y), b) == Add(Add(Add(b, y), a), x)
  {
    SumOf4(x, a, y, b);
    SumOf4(b, y, a, x);
  }

  lemma SumOf4(a: Word, b: Word, c: Word, d: Word)
    ensures Add(Add(Add(a, b), c), d) == ToUint32(a + b + c + d)
  {
    WordItself(a);
    WordItself(b);
    WordItself(c);
    WordItself(d);
    AddMod(a, b);
    AddMod(a + b, c);
    AddMod(a + b + c, d);
  }

  // ---------------------------------------------------------------- the code

  /** Longest message whose padded copy still has exactly representable indices. */
  const MAX_LENGTH: nat := 0x1F_FFFF_FFFF_FFFF - 72

  /** `view.setUint32`, big-endian. */
  method SetUint32(bytes: array<Byte>, at: nat, x: int)
    requires at + 4 <= bytes.Length
    modifies bytes
    ensures bytes[..] == old(bytes[..at]) + BigEndian32(ToUint32(x)) + old(bytes[at + 4..])
  {
    var word := ToUint32(x);
    bytes[at], bytes[at + 1], bytes[at + 2], bytes[at + 3] := word / 0x100_0000, word / 0x1_0000 % 0x100, word / 0x100 % 0x100, word % 0x100;
    assert bytes[..] == bytes[..at] + bytes[at..at + 4] + bytes[at + 4..];
    assert bytes[at..at + 4] == BigEndian32(word);
  }

  lemma PaddedLength(n: nat)
    ensures (n + 9 + 63) / 64 * 64 == n + 1 + ZeroCount(n) + 8
  {
    var total := n + 1 + ZeroCount(n) + 8;
    assert total == 64 * (total / 64);
    assert n + 9 <= total < n + 9 + 64;
  }

  /** The two 32-bit writes form the 64-bit big-endian bit count. */
  lemma LengthWrites(n: nat)
    requires n <= MAX_LENGTH
    ensures ToUint32(n / 0x2000_0000) == n * 8 / TWO32 && ToUint32(n * 8) == n * 8 % TWO32
  {
    assert n * 8 / TWO32 == n / 0x2000_0000;
  }

  method Pad(message: seq<Byte>) returns (padded: array<Byte>)
    requires |message| <= MAX_LENGTH
    ensures Admissible(message) && fresh(padded) && padded[..] == Padded(message)
  {
    var n := |message|;
    // Math.ceil((n + 9) / 64) * 64
    PaddedLength(n);
    var length := (n + 9 + 63) / 64 * 64;
    padded := new Byte[length](_ => 0);
    var i := 0;
    while i < n
      invariant 0 <= i <= n && padded[..] == message[..i] + seq(length - i, _ => 0)
    {
      padded[i] := message[i];
      i := i + 1;
    }
    padded[n] := 0x80;
    var zeros := seq(ZeroCount(n), _ => 0 as Byte);
    assert padded[..] == message + [0x80] + zeros + seq(8, _ => 0);
    LengthWrites(n);
    SetUint32(padded, length - 8, n / 0x2000_0000);
    assert padded[..] == message + [0x80] + zeros + BigEndian32(n * 8 / TWO32) + seq(4, _ => 0);
    SetUint32(padded, length - 4, n * 8);
    assert padded[..] == message + [0x80] + zeros + (BigEndian32(n * 8 / TWO32) + BigEndian32(n * 8 % TWO32));
  }

  lemma WordOfBlock(bytes: seq<Byte>, offset: nat, i: nat)
    requires offset + 64 <= |bytes| && i + 4 <= 64
    ensures WordAt(bytes, offset + i) == WordAt(bytes[offset..offset + 64], i)
  {
  }

  method LoadWords(padded: array<Byte>, offset: nat, w: array<Word>)
    requires offset + 64 <= padded.Length && w.Length == 64
    modifies w
    ensures forall t :: 0 <= t < 16 ==> w[t] == Schedule(padded[offset..offset + 64], t)
  {
    hide WordAt;
    var i := 0;
    while i < 16
      invariant 0 <= i <= 16 && forall t :: 0 <= t < i ==> w[t] == WordAt(padded[offset..offset + 64], t * 4)
    {
      WordOfBlock(padded[..], offset, i * 4);
      assert padded[..][offset..offset + 64] == padded[offset..offset + 64];
      w[i] := WordAt(padded[..], offset + i * 4);
      i := i + 1;
    }
  }

  lemma ScheduleNext(block: seq<Byte>, t: nat)
    requires |block| == 64 && 16 <= t < 64
    ensures Schedule(block, t) == JsNext(Schedule(block, t - 16), Schedule(block, t - 15), Schedule(block, t - 7), Schedule(block, t - 2))
  {
    hide JsNext, Add, SmallSigma0, SmallSigma1, WordAt;
    NextRefines(Schedule(block, t - 16), Schedule(block, t - 15), Schedule(block, t - 7), Schedule(block, t - 2));
  }

  method FillSchedule(padded: array<Byte>, offset: nat, w: array<Word>)
    requires offset + 64 <= padded.Length && w.Length == 64
    modifies w
    ensures forall t :: 0 <= t < 64 ==> w[t] == Schedule(padded[offset..offset + 64], t)
  {
    hide Schedule, JsNext;
    LoadWords(padded, offset, w);
    var i := 16;
    while i < 64
      invariant 16 <= i <= 64 && forall t :: 0 <= t < i ==> w[t] == Schedule(padded[offset..offset + 64], t)
    {
      ScheduleNext(padded[offset..offset + 64], i);
      w[i] := JsNext(w[i - 16], w[i - 15], w[i - 7], w[i - 2]);
      i := i + 1;
    }
  }

  method RunRounds(k: seq<Word>, w: array<Word>, ghost block: seq<Byte>, start: Vars) returns (v: Vars)
    requires |k| == 64 && |block| == 64 && w.Length == 64 && forall t :: 0 <= t < 64 ==> w[t] == Schedule(block, t)
    ensures v == Rounds(k, block, start, 64)
  {
    hide Round, JsRound, Schedule;
    v := start;
    var i := 0;
    while i < 64
      invariant 0 <= i <= 64 && v == Rounds(k, block, start, i)
    {
      RoundRefines(v, k[i], w[i]);
      v := JsRound(v, k[i], w[i]);
      i := i + 1;
    }
  }

  /** `h[i] += value`, truncated by the Uint32Array. */
  method AddTo(h: array<Word>, values: seq<Word>)
    requires h.Length == |values|
    modifies h
    ensures forall i :: 0 <= i < h.Length ==> h[i] == Add(old(h[i]), values[i])
  {
    var i := 0;
    while i < h.Length
      invariant 0 <= i <= h.Length
      invariant forall j :: 0 <= j < i ==> h[j] == Add(old(h[j]), values[j])
      invariant forall j :: i <= j < h.Length ==> h[j] == old(h[j])
    {
      h[i] := ToUint32(JsAdd(h[i], values[i]));
      i := i + 1;
    }
  }

  method CompressBlock(k: seq<Word>, padded: array<Byte>, offset: nat, w: array<Word>, h: array<Word>)
    requires |k| == 64 && offset + 64 <= padded.Length && w.Length == 64 && h.Length == 8 && w != h
    modifies w, h
    ensures h[..] == Compressed(k, old(h[..]), padded[offset..offset + 64])
  {
    hide Add, Schedule, Round, Rounds;
    ghost var block := padded[offset..offset + 64];
    FillSchedule(padded, offset, w);
    var v := RunRounds(k, w, block, Vars(h[0], h[1], h[2], h[3], h[4], h[5], h[6], h[7]));
    AddTo(h, [v.a, v.b, v.c, v.d, v.e, v.f, v.g, v.h]);
    assert h[..] == Compressed(k, old(h[..]), block);
  }

  method WriteOut(h: array<Word>) returns (out: array<Byte>)
    requires h.Length == 8
    ensures fresh(out) && out[..] == Concatenated(h[..])
  {
    out := new Byte[32](_ => 0);
    var i := 0;
    assert h[..0] == [];
    while i < 8
      invariant 0 <= i <= 8 && out[..] == Concatenated(h[..i]) + seq(32 - 4 * i, _ => 0)
    {
      assert h[..i + 1][..i] == h[..i];
      SetUint32(out, i * 4, h[i]);
      WordItself(h[i]);
      i := i + 1;
    }
    assert h[..8] == h[..];
  }

  /** The code computes the digest of FIPS 180-4 of every message, given the table of constants. */
  method Sha256Bytes(k: seq<Word>, message: seq<Byte>) returns (out: array<Byte>)
    requires |k| == 64 && |message| <= MAX_LENGTH
    ensures Admissible(message) && out[..] == Digest(k, message)
  {
    hide Compressed, Padded, Concatenated;
    var h := new Word[8](i requires 0 <= i < 8 => INITIAL[i]);
    var padded := Pad(message);
    var w := new Word[64](_ => 0);
    ghost var bytes := padded[..];
    assert h[..] == INITIAL;
    var offset, blocks := 0, 0;
    while offset < padded.Length
      invariant offset == blocks * 64 && 0 <= offset <= padded.Length && padded[..] == bytes
      invariant h[..] == Hash(k, bytes, blocks)
    {
      CompressBlock(k, padded, offset, w, h);
      blocks := blocks + 1;
      assert padded[offset..offset + 64] == bytes[(blocks - 1) * 64..blocks * 64];
      offset := offset + 64;
    }
    assert blocks == |bytes| / 64;
    out := WriteOut(h);
  }
}
