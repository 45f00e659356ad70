/** The packer's SHA-1 (`hashSha1`, `sha1PartHash`) proved against FIPS 180-4.

    The first half is the standard, in its own terms: functions and constants (4.1.1, 4.2.1), padding
    (5.1.1), parsing into blocks (5.2.1), initial value (5.3.1) and computation (6.1.2).  The second half
    is the program: one array `temp` that holds both the block and the schedule, one array `sha` that is
    updated block by block, and a tail of one or two blocks assembled in place. */
module Sha1 {

  type byte = bv8
  type Word = bv32

  const TWO_TO_32: nat := 0x1_0000_0000

  // ---------------------------------------------------------------- FIPS 180-4

  datatype Vars = Vars(a: Word, b: Word, c: Word, d: Word, e: Word)

  /** ROTL of section 3.2, by the counts of the rounds. */
  function Rotl5(x: Word): Word { x.RotateLeft(5) }

  function Rotl30(x: Word): Word { x.RotateLeft(30) }

  function Ch(x: Word, y: Word, z: Word): Word { (x & y) ^ (!x & z) }

  function Parity(x: Word, y: Word, z: Word): Word { x ^ y ^ z }

  function Maj(x: Word, y: Word, z: Word): Word { (x & y) ^ (x & z) ^ (y & z) }

  /** The logical functions of section 4.1.1. */
  function F(t: nat, x: Word, y: Word, z: Word): Word {
    if t < 20 then Ch(x, y, z) else if t < 40 then Parity(x, y, z) else if t < 60 then Maj(x, y, z) else Parity(x, y, z)
  }

  /** The constants of section 4.2.1. */
  function K(t: nat): Word {
    if t < 20 then 0x5a827999 else if t < 40 then 0x6ed9eba1 else if t < 60 then 0x8f1bbcdc else 0xca62c1d6
  }

  /** Addition in 32 bits. */
  function Add(x: Word, y: Word): Word { x + y }

  function Sum(v: Word, w: Word, x: Word, y: Word, z: Word): Word { Add(Add(Add(Add(v, w), x), y), z) }

  function Expand(w3: Word, w8: Word, w14: Word, w16: Word): Word { (w3 ^ w8 ^ w14 ^ w16).RotateLeft(1) }

  /** The message schedule, section 6.1.2 step 1. */
  function Schedule(m: seq<Word>, t: nat): Word
    requires |m| == 16
  {
    if t < 16 then m[t]
    else Expand(Schedule(m, t - 3), Schedule(m, t - 8), Schedule(m, t - 14), Schedule(m, t - 16))
  }

  /** The working variables after `t` rounds, section 6.1.2 step 3. */
  function Rounds(v: Vars, m: seq<Word>, t: nat): Vars
    requires |m| == 16
  {
    if t == 0 then v
    else
      var p := Rounds(v, m, t - 1);
      Vars(Sum(Rotl5(p.a), F(t - 1, p.b, p.c, p.d), p.e, K(t - 1), Schedule(m, t - 1)), p.a, Rotl30(p.b), p.c, p.d)
  }

  function Initial(h: seq<Word>): Vars
    requires |h| == 5
  {
    Vars(h[0], h[1], h[2], h[3], h[4])
  }

  function Accumulate(h: seq<Word>, v: Vars): (r: seq<Word>)
    requires |h| == 5
    ensures |r| == 5
  {
    [Add(h[0], v.a), Add(h[1], v.b), Add(h[2], v.c), Add(h[3], v.d), Add(h[4], v.e)]
  }

  /** One block, section 6.1.2 steps 2 to 4. */
  function Compress(h: seq<Word>, m: seq<Word>): (r: seq<Word>)
    requires |h| == 5 && |m| == 16
    ensures |r| == 5
  {
    Accumulate(h, Rounds(Initial(h), m, 80))
  }

  const InitialValue: seq<Word> := [0x67452301, 0xefcdab89, 0x98badcfe, 0x10325476, 0xc3d2e1f0]

  /** The hash value after the first `n` blocks of a padded message. */
  function HashBlocks(words: seq<Word>, n: nat): (r: seq<Word>)
    requires 16 * n <= |words|
    ensures |r| == 5
  {
    if n == 0 then InitialValue
    else Compress(HashBlocks(words, n - 1), words[16 * (n - 1)..16 * n])
  }

  function Or(x: Word, y: Word): Word { x | y }

  /** Byte `x` at position `p` of a big-endian word: `x << ((3 - p) << 3)`. */
  function AtByte(x: byte, p: nat): Word
    requires p < 4
  {
    if p == 0 then x as Word << 24 else if p == 1 then x as Word << 16 else if p == 2 then x as Word << 8 else x as Word
  }

  function BigEndian(b0: byte, b1: byte, b2: byte, b3: byte): Word {
    Or(Or(Or(AtByte(b0, 0), AtByte(b1, 1)), AtByte(b2, 2)), AtByte(b3, 3))
  }

  function WordAt(s: seq<byte>, j: nat): Word
    requires 4 * j + 4 <= |s|
  {
    BigEndian(s[4 * j], s[4 * j + 1], s[4 * j + 2], s[4 * j + 3])
  }

  function WordsOf(s: seq<byte>): (r: seq<Word>)
    requires |s| % 4 == 0
    ensures 4 * |r| == |s|
  {
    seq(|s| / 4, j requires 0 <= j < |s| / 4 => WordAt(s, j))
  }

  function Zeros(k: nat): seq<byte> { seq(k, _ => 0) }

  /** The number of zero bytes: the `k` below 64 with `n + 1 + k` congruent to 56 modulo 64 (448 modulo 512 bits). */
  function ZeroCount(n: nat): (k: nat)
    ensures (n + 1 + k) % 64 == 56
    ensures k < 64
  {
    (119 - n % 64) % 64
  }

  /** The message, a one bit and zero bits. */
  function Stretched(message: seq<byte>): (r: seq<byte>)
    ensures |r| % 64 == 56 && |r| % 4 == 0
  {
    ModFour(|message| + 1 + ZeroCount(|message|));
    message + [0x80] + Zeros(ZeroCount(|message|))
  }

  lemma ModFour(x: nat)
    requires x % 64 == 56
    ensures x % 4 == 0
  {
    var q := x / 64;
    assert x == 64 * q + 56;
    assert x / 4 == 16 * q + 14;
  }

  /** Append one binary digit. */
  function Digit(w: Word, one: bool): Word { if one then (w << 1) | 1 else w << 1 }

  /** The word whose binary digits are those of `x`, most significant first, for `x` below 2^32. */
  function ToWord(x: nat): Word {
    if x == 0 then 0 else Digit(ToWord(x / 2), x % 2 == 1)
  }

  /** The bit length as a 64-bit number, high word first. */
  function LengthWords(n: nat): (r: seq<Word>)
    requires 8 * n < TWO_TO_32 * TWO_TO_32
    ensures |r| == 2
  {
    [ToWord(8 * n / TWO_TO_32), ToWord(8 * n % TWO_TO_32)]
  }

  /** The padded message of section 5.1.1, parsed into 32-bit words. */
  function Padded(message: seq<byte>): seq<Word>
    requires 8 * |message| < TWO_TO_32 * TWO_TO_32
  {
    WordsOf(Stretched(message)) + LengthWords(|message|)
  }

  /** SHA-1 of section 6.1.2. */
  function Sha1(message: seq<byte>): (r: seq<Word>)
    requires 8 * |message| < TWO_TO_32 * TWO_TO_32
    ensures |r| == 5
  {
    HashBlocks(Padded(message), |Padded(message)| / 16)
  }

  // ---------------------------------------------------------------- bit-level facts

  /** `sha1Shift`, in 32 bits. */
  function Sha1Shift(v: Word, shift: Word): Word
    requires shift <= 32
  {
    (v << shift) | (v >> (32 - shift))
  }

  lemma ShiftIsRotl(v: Word)
    ensures Sha1Shift(v, 5) == Rotl5(v) && Sha1Shift(v, 30) == Rotl30(v)
  {
  }

  /** The sum of `_shiftswap`. */
  function SwapSum(a: Word, f: Word, e: Word, v: Word, word: Word): Word { Add(Add(Add(Add(Sha1Shift(a, 5), f), e), v), word) }

  lemma SwapSumIsSum(a: Word, f: Word, e: Word, v: Word, word: Word)
    ensures SwapSum(a, f, e, v, word) == Sum(Rotl5(a), f, e, v, word)
  {
    hide Rotl5, Sha1Shift, Add;
    ShiftIsRotl(a);
  }

  /** The new word of `_shiftshiftswap`. */
  function Extended(w3: Word, w8: Word, w14: Word, w16: Word): Word { Sha1Shift(w3 ^ w8 ^ w14 ^ w16, 1) }

  lemma ExtendedIsExpand(w3: Word, w8: Word, w14: Word, w16: Word)
    ensures Extended(w3, w8, w14, w16) == Expand(w3, w8, w14, w16)
  {
  }

  /** The program's forms of the first and third function join with `|` where the standard uses exclusive or. */
  function Choose(b: Word, c: Word, d: Word): Word { (b & c) | (!b & d) }

  function Majority(b: Word, c: Word, d: Word): Word { (b & c) | (b & d) | (c & d) }

  lemma ChooseIsCh(b: Word, c: Word, d: Word)
    ensures Choose(b, c, d) == Ch(b, c, d)
  {
    assert (b & c) | (!b & d) == (b & c) ^ (!b & d);
  }

  lemma MajorityIsMaj(b: Word, c: Word, d: Word)
    ensures Majority(b, c, d) == Maj(b, c, d)
  {
    assert (b & c) | (b & d) | (c & d) == (b & c) ^ (b & d) ^ (c & d);
  }

  lemma ParityIs(b: Word, c: Word, d: Word)
    ensures b ^ c ^ d == Parity(b, c, d)
  {
  }

  // ---------------------------------------------------------------- laws of the standard, word by word

  lemma ExpandLaw(x: Word, y: Word, z: Word, u: Word, w: Word)
    requires w == Expand(x, y, z, u)
    ensures (w >> 1) | (w << 31) == x ^ y ^ z ^ u
  {
  }

  /** Every later word, rotated back by one place, is the exclusive or of four earlier ones. */
  lemma ScheduleLaw(m: seq<Word>, t: nat)
    requires |m| == 16 && t >= 16
    ensures var w := Schedule(m, t);
            (w >> 1) | (w << 31) == Schedule(m, t - 3) ^ Schedule(m, t - 8) ^ Schedule(m, t - 14) ^ Schedule(m, t - 16)
  {
    hide Schedule, Expand;
    ScheduleStep(m, t);
    ExpandLaw(Schedule(m, t - 3), Schedule(m, t - 8), Schedule(m, t - 14), Schedule(m, t - 16), Schedule(m, t));
  }

  lemma ScheduleStep(m: seq<Word>, t: nat)
    requires |m| == 16
    ensures t < 16 ==> Schedule(m, t) == m[t]
    ensures t >= 16 ==> Schedule(m, t) == Expand(Schedule(m, t - 3), Schedule(m, t - 8), Schedule(m, t - 14), Schedule(m, t - 16))
  {
    hide Expand;
  }

  lemma ExpandInjective(x: Word, y: Word, z: Word, u: Word, v: Word)
    requires Expand(x, y, z, u) == Expand(x, y, z, v)
    ensures u == v
  {
  }

  /** Any sixteen consecutive schedule words determine the block: different blocks never have them in common. */
  lemma {:induction false} ScheduleIsInjective(m: seq<Word>, n: seq<Word>, t: nat)
    requires |m| == |n| == 16
    requires forall k :: t <= k < t + 16 ==> Schedule(m, k) == Schedule(n, k)
    ensures m == n
  {
    hide Schedule, Expand;
    if t == 0 {
      forall k | 0 <= k < 16 ensures m[k] == n[k] {
        ScheduleStep(m, k);
        ScheduleStep(n, k);
      }
    } else {
      ScheduleStep(m, t + 15);
      ScheduleStep(n, t + 15);
      ExpandInjective(Schedule(m, t + 12), Schedule(m, t + 7), Schedule(m, t + 1), Schedule(m, t - 1), Schedule(n, t - 1));
      ScheduleIsInjective(m, n, t - 1);
    }
  }

  /** One round in full, from `p` to `q` with the schedule word `w`: the terms of the sum, and where the other
      components go. */
  lemma RoundLaw(v: Vars, m: seq<Word>, t: nat, p: Vars, q: Vars, w: Word)
    requires |m| == 16 && p == Rounds(v, m, t) && q == Rounds(v, m, t + 1) && w == Schedule(m, t)
    ensures q.b == p.a && q.c == Rotl30(p.b) && q.d == p.c && q.e == p.d
    ensures t < 20 ==> q.a == Add(Add(Add(Add(Rotl5(p.a), (p.b & p.c) | (!p.b & p.d)), p.e), 0x5a827999), w)
    ensures 20 <= t < 40 ==> q.a == Add(Add(Add(Add(Rotl5(p.a), p.b ^ p.c ^ p.d), p.e), 0x6ed9eba1), w)
    ensures 40 <= t < 60 ==>
              q.a == Add(Add(Add(Add(Rotl5(p.a), (p.b & p.c) | (p.b & p.d) | (p.c & p.d)), p.e), 0x8f1bbcdc), w)
    ensures 60 <= t ==> q.a == Add(Add(Add(Add(Rotl5(p.a), p.b ^ p.c ^ p.d), p.e), 0xca62c1d6), w)
  {
    hide Rounds, Schedule, F, K, Rotl5, Rotl30, Add;
    RoundStep(v, m, t);
    FunctionMeans(t, p);
    ConstantMeans(t);
  }

  lemma RoundStep(v: Vars, m: seq<Word>, t: nat)
    requires |m| == 16
    ensures Rounds(v, m, 0) == v
    ensures var p := Rounds(v, m, t);
            Rounds(v, m, t + 1) == Vars(Sum(Rotl5(p.a), F(t, p.b, p.c, p.d), p.e, K(t), Schedule(m, t)), p.a, Rotl30(p.b), p.c, p.d)
  {
    hide Sum, Rotl5, Rotl30, F, K, Schedule;
  }

  lemma RotationsMean(x: Word)
    ensures Rotl5(x) == (x << 5) | (x >> 27) && Rotl30(x) == (x << 30) | (x >> 2)
  {
  }

  lemma FunctionMeans(t: nat, p: Vars)
    ensures t < 20 ==> F(t, p.b, p.c, p.d) == (p.b & p.c) | (!p.b & p.d)
    ensures 20 <= t < 40 || 60 <= t ==> F(t, p.b, p.c, p.d) == p.b ^ p.c ^ p.d
    ensures 40 <= t < 60 ==> F(t, p.b, p.c, p.d) == (p.b & p.c) | (p.b & p.d) | (p.c & p.d)
  {
    hide Ch, Maj, Parity, Choose, Majority;
    ChooseIsCh(p.b, p.c, p.d);
    MajorityIsMaj(p.b, p.c, p.d);
    FormsMean(p.b, p.c, p.d);
  }

  lemma FormsMean(x: Word, y: Word, z: Word)
    ensures Choose(x, y, z) == (x & y) | (!x & z) && Majority(x, y, z) == (x & y) | (x & z) | (y & z)
    ensures Parity(x, y, z) == x ^ y ^ z
  {
  }

  lemma ConstantMeans(t: nat)
    ensures t < 20 ==> K(t) == 0x5a827999
    ensures 20 <= t < 40 ==> K(t) == 0x6ed9eba1
    ensures 40 <= t < 60 ==> K(t) == 0x8f1bbcdc
    ensures 60 <= t ==> K(t) == 0xca62c1d6
  {
  }

  /** The rounds of one block permute the working variables: from different ones no block leads to the same. */
  lemma {:induction false} RoundsAreInjective(v: Vars, u: Vars, m: seq<Word>, t: nat)
    requires |m| == 16 && Rounds(v, m, t) == Rounds(u, m, t)
    ensures v == u
  {
    hide Rounds, Schedule, F, K, Rotl5, Rotl30, Sum;
    RoundStep(v, m, 0);
    RoundStep(u, m, 0);
    if t > 0 {
      var p, q, w := Rounds(v, m, t - 1), Rounds(u, m, t - 1), Schedule(m, t - 1);
      RoundStep(v, m, t - 1);
      RoundStep(u, m, t - 1);
      Rotl30Injective(p.b, q.b);
      SumInjective(Rotl5(p.a), F(t - 1, p.b, p.c, p.d), K(t - 1), w, p.e, q.e);
      RoundsAreInjective(v, u, m, t - 1);
    }
  }

  lemma Rotl30Injective(x: Word, y: Word)
    requires Rotl30(x) == Rotl30(y)
    ensures x == y
  {
  }

  lemma SumInjective(r: Word, f: Word, k: Word, w: Word, e: Word, g: Word)
    requires Sum(r, f, e, k, w) == Sum(r, f, g, k, w)
    ensures e == g
  {
    hide Add;
    AddInjective(Add(Add(Add(r, f), e), k), Add(Add(Add(r, f), g), k), w);
    AddInjective(Add(Add(r, f), e), Add(Add(r, f), g), k);
    AddCommutes(Add(r, f), e);
    AddCommutes(Add(r, f), g);
    AddInjective(e, g, Add(r, f));
  }

  lemma AddCommutes(x: Word, y: Word)
    ensures Add(x, y) == Add(y, x)
  {
  }

  function Less(s: Word, z: Word): Word { s - z }

  lemma LessBits(x: Word, z: Word)
    ensures Less(x + z, z) == x
  {
  }

  lemma LessAdd(x: Word, z: Word)
    ensures Less(Add(x, z), z) == x
  {
    hide Less;
    LessBits(x, z);
  }

  lemma AddInjective(x: Word, y: Word, z: Word)
    requires Add(x, z) == Add(y, z)
    ensures x == y
  {
    hide Add, Less;
    LessAdd(x, z);
    LessAdd(y, z);
  }

  // ---------------------------------------------------------------- the program

  /** After `round` rounds the prefix of `temp` is the standard schedule and the locals are the standard
      working variables. */
  ghost predicate Agrees(h: seq<Word>, m: seq<Word>, temp: seq<Word>, round: nat, v: Vars)
  {
    && |h| == 5 && |m| == 16 && |temp| == 80 && round <= 80
    && (forall t :: 0 <= t < 16 || 0 <= t < round ==> temp[t] == Schedule(m, t))
    && Rounds(Initial(h), m, round) == v
  }

  /** The macro `_shiftswap`: one round on the locals. */
  method ShiftSwap(v: Vars, f: Word, k: Word, temp: array<Word>, round: nat, ghost h: seq<Word>, ghost m: seq<Word>)
    returns (w: Vars)
    requires temp.Length == 80 && round < 80 && temp[round] == (if |m| == 16 then Schedule(m, round) else 0)
    requires Agrees(h, m, temp[..], round, v) && f == F(round, v.b, v.c, v.d) && k == K(round)
    ensures Agrees(h, m, temp[..], round + 1, w)
  {
    hide Sum, Rotl5, Rotl30, Ch, Parity, Maj, Expand, SwapSum, Extended, Sha1Shift;
    SwapSumIsSum(v.a, f, v.e, k, temp[round]);
    ShiftIsRotl(v.b);
    var t := SwapSum(v.a, f, v.e, k, temp[round]);
    w := Vars(t, v.a, Sha1Shift(v.b, 30), v.c, v.d);
  }

  /** The macro `_shiftshiftswap`: extend the schedule in place, then do one round. */
  method ShiftShiftSwap(v: Vars, f: Word, k: Word, temp: array<Word>, round: nat, ghost h: seq<Word>, ghost m: seq<Word>)
    returns (w: Vars)
    requires temp.Length == 80 && 16 <= round < 80
    requires Agrees(h, m, temp[..], round, v) && f == F(round, v.b, v.c, v.d) && k == K(round)
    modifies temp
    ensures Agrees(h, m, temp[..], round + 1, w)
  {
    hide Sum, Rotl5, Rotl30, Ch, Parity, Maj, Expand, SwapSum, Extended, Sha1Shift;
    ExtendedIsExpand(temp[round - 3], temp[round - 8], temp[round - 14], temp[round - 16]);
    temp[round] := Extended(temp[round - 3], temp[round - 8], temp[round - 14], temp[round - 16]);
    w := ShiftSwap(v, f, k, temp, round, h, m);
  }

  /** The last five statements of `sha1PartHash`. */
  method AddTo(sha: array<Word>, v: Vars)
    requires sha.Length == 5
    modifies sha
    ensures sha[..] == Accumulate(old(sha[..]), v)
  {
    hide Add;
    sha[0] := Add(sha[0], v.a);
    sha[1] := Add(sha[1], v.b);
    sha[2] := Add(sha[2], v.c);
    sha[3] := Add(sha[3], v.d);
    sha[4] := Add(sha[4], v.e);
  }

  /** The first three loops of `sha1PartHash`. */
  method EarlyRounds(v0: Vars, temp: array<Word>, ghost h: seq<Word>, ghost m: seq<Word>) returns (v: Vars)
    requires temp.Length == 80 && Agrees(h, m, temp[..], 0, v0)
    modifies temp
    ensures Agrees(h, m, temp[..], 40, v)
  {
    hide Sum, Rotl5, Rotl30, Ch, Parity, Maj, Expand, SwapSum, Extended, Sha1Shift, Choose, Majority;
    v := v0;
    var round := 0;
    while round < 16
      modifies temp
      invariant round <= 16 && Agrees(h, m, temp[..], round, v)
    {
      var f := Choose(v.b, v.c, v.d);
      ChooseIsCh(v.b, v.c, v.d);
      v := ShiftSwap(v, f, 0x5a827999, temp, round, h, m);
      round := round + 1;
    }
    while round < 20
      modifies temp
      invariant 16 <= round <= 20 && Agrees(h, m, temp[..], round, v)
    {
      var f := Choose(v.b, v.c, v.d);
      ChooseIsCh(v.b, v.c, v.d);
      v := ShiftShiftSwap(v, f, 0x5a827999, temp, round, h, m);
      round := round + 1;
    }
    while round < 40
      modifies temp
      invariant 20 <= round <= 40 && Agrees(h, m, temp[..], round, v)
    {
      var f := v.b ^ v.c ^ v.d;
      ParityIs(v.b, v.c, v.d);
      v := ShiftShiftSwap(v, f, 0x6ed9eba1, temp, round, h, m);
      round := round + 1;
    }
  }

  /** The last two loops of `sha1PartHash`. */
  method LateRounds(v0: Vars, temp: array<Word>, ghost h: seq<Word>, ghost m: seq<Word>) returns (v: Vars)
    requires temp.Length == 80 && Agrees(h, m, temp[..], 40, v0)
    modifies temp
    ensures Agrees(h, m, temp[..], 80, v)
  {
    hide Sum, Rotl5, Rotl30, Ch, Parity, Maj, Expand, SwapSum, Extended, Sha1Shift, Choose, Majority;
    v := v0;
    var round := 40;
    while round < 60
      modifies temp
      invariant 40 <= round <= 60 && Agrees(h, m, temp[..], round, v)
    {
      var f := Majority(v.b, v.c, v.d);
      MajorityIsMaj(v.b, v.c, v.d);
      v := ShiftShiftSwap(v, f, 0x8f1bbcdc, temp, round, h, m);
      round := round + 1;
    }
    while round < 80
      modifies temp
      invariant 60 <= round <= 80 && Agrees(h, m, temp[..], round, v)
    {
      var f := v.b ^ v.c ^ v.d;
      ParityIs(v.b, v.c, v.d);
      v := ShiftShiftSwap(v, f, 0xca62c1d6, temp, round, h, m);
      round := round + 1;
    }
  }

  /** `sha1PartHash`: the hash value absorbs the block held in the first sixteen words of `temp`. */
  method PartHash(sha: array<Word>, temp: array<Word>)
    requires sha.Length == 5 && temp.Length == 80 && sha != temp
    modifies sha, temp
    ensures sha[..] == Compress(old(sha[..]), old(temp[..16]))
  {
    hide Add, Sum, Rotl5, Rotl30, Ch, Parity, Maj, Expand, SwapSum, Extended, Sha1Shift;
    ghost var h, m := sha[..], temp[..16];
    var v := EarlyRounds(Vars(sha[0], sha[1], sha[2], sha[3], sha[4]), temp, h, m);
    v := LateRounds(v, temp, h, m);
    assert sha[..] == h;
    AddTo(sha, v);
  }

  // ---------------------------------------------------------------- padding in place

  /** The words the program hashes: as in the standard, except that the length is one 32-bit word, shifted
      left by three in 32 bits, under a zero word. */
  function ProgramWords(message: seq<byte>): seq<Word> {
    WordsOf(Stretched(message)) + [0, Shl3(ToWord(|message|))]
  }

  function Shl3(w: Word): Word { w << 3 }

  lemma ThreeDigits(w: Word)
    ensures Digit(Digit(Digit(w, false), false), false) == Shl3(w)
  {
    assert Digit(w, false) == w << 1;
    assert Digit(w << 1, false) == w << 2 by { assert (w << 1) << 1 == w << 2; }
    assert Digit(w << 2, false) == w << 3 by { assert (w << 2) << 1 == w << 3; }
  }

  lemma Double(n: nat)
    ensures ToWord(2 * n) == Digit(ToWord(n), false)
  {
    if n == 0 {
      assert 0 as Word << 1 == 0;
    }
  }

  lemma ShiftThree(n: nat)
    ensures ToWord(8 * n) == Shl3(ToWord(n))
  {
    hide ToWord, Digit, Shl3;
    Double(n);
    Double(2 * n);
    Double(4 * n);
    assert ToWord(8 * n) == Digit(ToWord(4 * n), false) && ToWord(4 * n) == Digit(ToWord(2 * n), false);
    ThreeDigits(ToWord(n));
  }

  lemma DigitsKept(w: Word, one: bool)
    requires w < 4 && (w != 0 || one)
    ensures Digit(w, one) != 0 && (w < 2 ==> Digit(w, one) < 4)
  {
  }

  lemma SmallWords(x: nat)
    requires 0 < x < 8
    ensures ToWord(x) != 0
    ensures x < 4 ==> ToWord(x) < 4
    ensures x < 2 ==> ToWord(x) < 2
  {
    hide Digit;
    if x == 1 {
      assert ToWord(0) == 0;
      assert ToWord(1) == Digit(0, true) == 1 by { OneDigit(); }
    } else {
      SmallWords(x / 2);
      DigitsKept(ToWord(x / 2), x % 2 == 1);
    }
  }

  function PowerOfTwo(k: nat): nat { if k == 0 then 1 else 2 * PowerOfTwo(k - 1) }

  /** 2^31 shifted right. */
  function TopBit(j: nat): Word { if j == 0 then 0x8000_0000 else TopBit(j - 1) >> 1 }

  lemma OuterPowers()
    ensures PowerOfTwo(0) == 1 && PowerOfTwo(31) == 0x8000_0000 && TopBit(31) == 1
  {
    assert PowerOfTwo(8) == 0x100;
    assert PowerOfTwo(16) == 0x1_0000;
    assert PowerOfTwo(24) == 0x100_0000;
    assert TopBit(8) == 0x80_0000;
    assert TopBit(16) == 0x8000;
    assert TopBit(24) == 0x80;
  }

  lemma DigitLaw(w: Word, one: bool, top: Word)
    ensures w < 0x8000_0000 ==> Digit(w, one) >> 1 == w && Digit(w, one) & 1 == if one then 1 else 0
    ensures w < (top >> 1) ==> Digit(w, one) < top
  {
  }

  lemma {:induction false} BelowTop(x: nat, j: nat)
    requires j <= 31 && x < PowerOfTwo(31 - j)
    ensures ToWord(x) < TopBit(j)
    decreases 31 - j
  {
    hide Digit;
    if j == 31 {
      OuterPowers();
    } else {
      BelowTop(x / 2, j + 1);
      DigitLaw(ToWord(x / 2), x % 2 == 1, TopBit(j));
      DigitLaw(0, false, TopBit(j));
      assert ToWord(0) == 0;
    }
  }

  /** Below 2^32 the word has the binary digits of the number: the last digit, and before it those of the half. */
  lemma WordDigits(x: nat)
    requires x < TWO_TO_32
    ensures ToWord(x) & 1 == (if x % 2 == 1 then 1 else 0) && ToWord(x) >> 1 == ToWord(x / 2)
  {
    hide Digit;
    if x > 0 {
      OuterPowers();
      BelowTop(x / 2, 0);
      DigitLaw(ToWord(x / 2), x % 2 == 1, 0);
    }
  }

  lemma ZeroWord()
    ensures ToWord(0) == 0
  {
  }

  lemma OneDigit()
    ensures Digit(0, true) == 1
  {
  }

  /** The program hashes the padded message of the standard exactly when the message is shorter than 2^29
      bytes: beyond that the upper half of the bit length is lost. */
  lemma ProgramWordsAreStandard(message: seq<byte>)
    requires |message| < TWO_TO_32
    ensures ProgramWords(message) == Padded(message) <==> |message| < 0x2000_0000
  {
    var n := |message|;
    hide ToWord, Shl3, BigEndian;
    ShiftThree(n);
    var body := WordsOf(Stretched(message));
    assert Padded(message) == body + LengthWords(n);
    if n < 0x2000_0000 {
      assert ToWord(0) == 0 by { ZeroWord(); }
      assert 8 * n / TWO_TO_32 == 0 && 8 * n % TWO_TO_32 == 8 * n;
    } else {
      SmallWords(8 * n / TWO_TO_32);
      assert ProgramWords(message)[|body|] == 0;
      assert Padded(message)[|body|] == ToWord(8 * n / TWO_TO_32);
    }
  }

  lemma OrLaws(x: Word, y: Word, z: Word)
    ensures Or(x, 0) == x && Or(0, x) == x
    ensures Or(Or(x, y), z) == Or(Or(x, z), y)
  {
    assert x | 0 == x && 0 | x == x;
    assert (x | y) | z == (x | z) | y;
  }

  lemma ZeroByte(p: nat)
    requires p < 4
    ensures AtByte(0, p) == 0
  {
  }

  lemma PutIntoWord(b0: byte, b1: byte, b2: byte, b3: byte, x: byte)
    ensures b0 == 0 ==> Or(BigEndian(b0, b1, b2, b3), AtByte(x, 0)) == BigEndian(x, b1, b2, b3)
    ensures b1 == 0 ==> Or(BigEndian(b0, b1, b2, b3), AtByte(x, 1)) == BigEndian(b0, x, b2, b3)
    ensures b2 == 0 ==> Or(BigEndian(b0, b1, b2, b3), AtByte(x, 2)) == BigEndian(b0, b1, x, b3)
    ensures b3 == 0 ==> Or(BigEndian(b0, b1, b2, b3), AtByte(x, 3)) == BigEndian(b0, b1, b2, x)
  {
    hide Or, AtByte;
    forall p | 0 <= p < 4 { ZeroByte(p); }
    forall u, v, w { OrLaws(u, v, w); }
  }

  /** Joining one byte into its word is the same as writing it into the byte sequence. */
  lemma PutByte(s: seq<byte>, at: nat, x: byte, j: nat)
    requires |s| == 64 && at < 64 && s[at] == 0 && j < 16
    ensures WordAt(s[at := x], j) == if j == at / 4 then Or(WordAt(s, j), AtByte(x, at % 4)) else WordAt(s, j)
  {
    var t := s[at := x];
    assert at == 4 * (at / 4) + at % 4;
    assert t[4 * j] == (if at == 4 * j then x else s[4 * j]) && t[4 * j + 1] == if at == 4 * j + 1 then x else s[4 * j + 1];
    assert t[4 * j + 2] == (if at == 4 * j + 2 then x else s[4 * j + 2]) && t[4 * j + 3] == if at == 4 * j + 3 then x else s[4 * j + 3];
    PutIntoWord(s[4 * j], s[4 * j + 1], s[4 * j + 2], s[4 * j + 3], x);
    hide BigEndian, AtByte, Or;
  }

  /** What is left after the full blocks, the one bit, and zeros up to 64 bytes. */
  function TailBytes(message: seq<byte>): (r: seq<byte>)
    ensures |r| == 64
  {
    var rest := message[|message| / 64 * 64..];
    rest + [0x80] + Zeros(63 - |rest|)
  }

  const ZeroBlock: seq<Word> := seq(16, _ => 0)

  /** Words of the message itself, of the stretched message and of the hashed words agree. */
  lemma FullBlock(message: seq<byte>, q: nat, block: seq<Word>)
    requires 64 * q + 64 <= |message| && |block| == 16
    requires forall i :: 0 <= i < 16 ==> block[i] == WordAt(message, 16 * q + i)
    ensures 16 * q + 16 <= |ProgramWords(message)| && block == ProgramWords(message)[16 * q..16 * q + 16]
  {
    hide BigEndian, ToWord, Shl3;
    var s := Stretched(message);
    forall i | 0 <= i < 16
      ensures ProgramWords(message)[16 * q + i] == block[i]
    {
      assert 4 * (16 * q + i) + 4 <= |message|;
      assert WordAt(s, 16 * q + i) == WordAt(message, 16 * q + i);
    }
  }

  /** The stretched message from the last full block on: the tail bytes, then zeros. */
  lemma StretchedTail(message: seq<byte>)
    ensures |Stretched(message)| == 64 * (|message| / 64) + (if |message| % 64 < 56 then 56 else 120)
    ensures forall k :: 0 <= k < 64 && 64 * (|message| / 64) + k < |Stretched(message)| ==>
              Stretched(message)[64 * (|message| / 64) + k] == TailBytes(message)[k]
    ensures forall k :: 64 * (|message| / 64) + 64 <= k < |Stretched(message)| ==> Stretched(message)[k] == 0
  {
    hide BigEndian;
    var n := |message|;
    assert ZeroCount(n) == if n % 64 < 56 then 55 - n % 64 else 119 - n % 64;
  }

  /** Equal bytes make equal words. */
  lemma SameWord(s: seq<byte>, t: seq<byte>, i: nat, j: nat)
    requires 4 * i + 4 <= |s| && 4 * j + 4 <= |t|
    requires s[4 * i] == t[4 * j] && s[4 * i + 1] == t[4 * j + 1]
    requires s[4 * i + 2] == t[4 * j + 2] && s[4 * i + 3] == t[4 * j + 3]
    ensures WordAt(s, i) == WordAt(t, j)
  {
    hide BigEndian;
  }

  /** One word of the final blocks. */
  lemma TailWord(message: seq<byte>, i: nat)
    requires i < 16 && 64 * (|message| / 64) + 4 * i + 4 <= |Stretched(message)|
    ensures 16 * (|message| / 64) + i < |WordsOf(Stretched(message))|
    ensures ProgramWords(message)[16 * (|message| / 64) + i] == WordAt(TailBytes(message), i)
  {
    hide BigEndian, ToWord, Shl3, Stretched, TailBytes;
    var base, s, t := 64 * (|message| / 64), Stretched(message), TailBytes(message);
    StretchedTail(message);
    assert s[base + 4 * i] == t[4 * i] && s[base + (4 * i + 1)] == t[4 * i + 1];
    assert s[base + (4 * i + 2)] == t[4 * i + 2] && s[base + (4 * i + 3)] == t[4 * i + 3];
    SameWord(s, t, 16 * (|message| / 64) + i, i);
  }

  /** The last block when the length still fits: fourteen tail words and the two length words. */
  lemma ShortTail(message: seq<byte>, block: seq<Word>)
    requires |message| % 64 < 56
    requires block == WordsOf(TailBytes(message))[..14] + [0, Shl3(ToWord(|message|))]
    ensures |ProgramWords(message)| == 16 * (|message| / 64) + 16
    ensures block == ProgramWords(message)[16 * (|message| / 64)..]
  {
    hide WordAt, ToWord, Shl3, Stretched, TailBytes;
    StretchedTail(message);
    forall i | 0 <= i < 14 { TailWord(message, i); }
  }

  /** The last two blocks when it does not. */
  lemma LongTail(message: seq<byte>, block: seq<Word>)
    requires |message| % 64 >= 56
    requires block == WordsOf(TailBytes(message))
    ensures |ProgramWords(message)| == 16 * (|message| / 64) + 32
    ensures block == ProgramWords(message)[16 * (|message| / 64)..16 * (|message| / 64) + 16]
  {
    hide WordAt, ToWord, Shl3, Stretched, TailBytes;
    StretchedTail(message);
    forall i | 0 <= i < 16 { TailWord(message, i); }
  }

  lemma LongTailLast(message: seq<byte>, last: seq<Word>)
    requires |message| % 64 >= 56
    requires last == ZeroBlock[..14] + [0, Shl3(ToWord(|message|))]
    ensures |ProgramWords(message)| == 16 * (|message| / 64) + 32
    ensures last == ProgramWords(message)[16 * (|message| / 64) + 16..]
  {
    hide BigEndian, ToWord, Shl3, Stretched;
    StretchedTail(message);
    ZeroBytes();
    var from := 16 * (|message| / 64) + 16;
    forall k | from <= k < from + 14
      ensures ProgramWords(message)[k] == 0
    {
      assert WordAt(Stretched(message), k) == BigEndian(0, 0, 0, 0);
    }
  }

  lemma ZeroBytes()
    ensures BigEndian(0, 0, 0, 0) == 0
  {
    hide AtByte, Or;
    forall p | 0 <= p < 4 { ZeroByte(p); }
    OrLaws(0, 0, 0);
  }

  /** `(w >> (((3 - p) & 3) << 3)) & 0xFF`. */
  function ByteOf(w: Word, p: nat): byte
    requires p < 4
  {
    if p == 0 then ((w >> 24) & 0xFF) as byte
    else if p == 1 then ((w >> 16) & 0xFF) as byte
    else if p == 2 then ((w >> 8) & 0xFF) as byte
    else (w & 0xFF) as byte
  }

  lemma MaskedBytes(w: Word)
    ensures AtByte(ByteOf(w, 0), 0) == w & 0xFF00_0000
    ensures AtByte(ByteOf(w, 1), 1) == w & 0x00FF_0000
    ensures AtByte(ByteOf(w, 2), 2) == w & 0x0000_FF00
    ensures AtByte(ByteOf(w, 3), 3) == w & 0x0000_00FF
  {
    assert ((w >> 24) & 0xFF) << 24 == w & 0xFF00_0000;
    assert ((w >> 16) & 0xFF) << 16 == w & 0x00FF_0000;
    assert ((w >> 8) & 0xFF) << 8 == w & 0x0000_FF00;
  }

  lemma FourBytes(w: Word)
    ensures BigEndian(ByteOf(w, 0), ByteOf(w, 1), ByteOf(w, 2), ByteOf(w, 3)) == w
  {
    hide AtByte, ByteOf;
    MaskedBytes(w);
    assert (((w & 0xFF00_0000) | (w & 0x00FF_0000)) | (w & 0x0000_FF00)) | (w & 0x0000_00FF) == w;
  }

  // ---------------------------------------------------------------- the example of FIPS 180

  const Abc: seq<byte> := [0x61, 0x62, 0x63]

  /** The one padded block of "abc". */
  function AbcBlock(): seq<Word> { seq(16, i => if i == 0 then 0x61626380 else if i == 15 then 24 else 0) }

  function Start(): Vars { Vars(0x67452301, 0xefcdab89, 0x98badcfe, 0x10325476, 0xc3d2e1f0) }

  function AbcWord(t: nat): Word { Schedule(AbcBlock(), t) }

  function AbcRounds(t: nat): Vars { Rounds(Start(), AbcBlock(), t) }

  lemma AbcNext(t: nat)
    ensures t < 16 ==> AbcWord(t) == AbcBlock()[t]
    ensures t >= 16 ==> AbcWord(t) == Expand(AbcWord(t - 3), AbcWord(t - 8), AbcWord(t - 14), AbcWord(t - 16))
  {
    hide Schedule, Expand;
    ScheduleStep(AbcBlock(), t);
  }

  lemma AbcStep(t: nat)
    ensures AbcRounds(0) == Start()
    ensures var p := AbcRounds(t);
            AbcRounds(t + 1) == Vars(Sum(Rotl5(p.a), F(t, p.b, p.c, p.d), p.e, K(t), AbcWord(t)), p.a, Rotl30(p.b), p.c, p.d)
  {
    hide Sum, Rotl5, Rotl30, F, K, Schedule;
    RoundStep(Start(), AbcBlock(), t);
  }

  lemma AbcWords16()
    ensures AbcWord(0) == 0x61626380 && AbcWord(1) == 0x0 && AbcWord(2) == 0x0 && AbcWord(3) == 0x0
    ensures AbcWord(4) == 0x0 && AbcWord(5) == 0x0 && AbcWord(6) == 0x0 && AbcWord(7) == 0x0
    ensures AbcWord(8) == 0x0 && AbcWord(9) == 0x0 && AbcWord(10) == 0x0 && AbcWord(11) == 0x0
    ensures AbcWord(12) == 0x0 && AbcWord(13) == 0x0 && AbcWord(14) == 0x0 && AbcWord(15) == 0x18
  {
    hide AbcWord;
    forall t: nat | 0 <= t < 16 { AbcNext(t); }
  }

  lemma AbcRounds16()
    ensures AbcRounds(16) == Vars(0x20bdd62f, 0x196bee77, 0x644a3da5, 0x1181ed99, 0x18c623f9)
  {
    hide AbcRounds, AbcWord;
    AbcWords16();
    AbcStep(0); AbcStep(1); AbcStep(2); AbcStep(3); AbcStep(4); AbcStep(5); AbcStep(6); AbcStep(7);
    AbcStep(8); AbcStep(9); AbcStep(10); AbcStep(11); AbcStep(12); AbcStep(13); AbcStep(14); AbcStep(15);
  }

  lemma AbcWords32()
    ensures AbcWord(16) == 0xc2c4c700 && AbcWord(17) == 0x0 && AbcWord(18) == 0x30 && AbcWord(19) == 0x85898e01
    ensures AbcWord(20) == 0x0 && AbcWord(21) == 0x60 && AbcWord(22) == 0xb131c03 && AbcWord(23) == 0x30
    ensures AbcWord(24) == 0x85898ec1 && AbcWord(25) == 0x16263806 && AbcWord(26) == 0x0 && AbcWord(27) == 0x180
    ensures AbcWord(28) == 0x2c4c700c && AbcWord(29) == 0xf0 && AbcWord(30) == 0x93afb507 && AbcWord(31) == 0x5898e048
  {
    hide AbcWord;
    AbcWords16();
    forall t: nat | 16 <= t < 32 { AbcNext(t); }
  }

  lemma AbcRounds32()
    ensures AbcRounds(32) == Vars(0x3b845d33, 0x1267b407, 0x717eebd7, 0xa0dc2d4b, 0xd2aa1365)
  {
    hide AbcRounds, AbcWord;
    AbcWords32();
    AbcRounds16();
    AbcStep(16); AbcStep(17); AbcStep(18); AbcStep(19); AbcStep(20); AbcStep(21); AbcStep(22); AbcStep(23);
    AbcStep(24); AbcStep(25); AbcStep(26); AbcStep(27); AbcStep(28); AbcStep(29); AbcStep(30); AbcStep(31);
  }

  lemma AbcWords48()
    ensures AbcWord(32) == 0x8e9a9202 && AbcWord(33) == 0x600 && AbcWord(34) == 0xb131c0f0 && AbcWord(35) == 0x16263bc6
    ensures AbcWord(36) == 0x4ebed41e && AbcWord(37) == 0x626380a1 && AbcWord(38) == 0x16263806 && AbcWord(39) == 0x18c0
    ensures AbcWord(40) == 0xd2e138c4 && AbcWord(41) == 0xf00 && AbcWord(42) == 0x3afb5079 && AbcWord(43) == 0x898e04e5
    ensures AbcWord(44) == 0xe2ba3c2b && AbcWord(45) == 0x60c0 && AbcWord(46) == 0x53a37cd && AbcWord(47) == 0x74458547
  {
    hide AbcWord;
    AbcWords32();
    forall t: nat | 32 <= t < 48 { AbcNext(t); }
  }

  lemma AbcRounds48()
    ensures AbcRounds(48) == Vars(0xbead02ca, 0xa01b846c, 0x8714787c, 0x503ca382, 0xfb86c6ab)
  {
    hide AbcRounds, AbcWord;
    AbcWords48();
    AbcRounds32();
    AbcStep(32); AbcStep(33); AbcStep(34); AbcStep(35); AbcStep(36); AbcStep(37); AbcStep(38); AbcStep(39);
    AbcStep(40); AbcStep(41); AbcStep(42); AbcStep(43); AbcStep(44); AbcStep(45); AbcStep(46); AbcStep(47);
  }

  lemma AbcWords64()
    ensures AbcWord(48) == 0xda9415ed && AbcWord(49) == 0x26380a16 && AbcWord(50) == 0x626383a1 && AbcWord(51) == 0x4ebf54de
    ensures AbcWord(52) == 0x3835b44b && AbcWord(53) == 0xf600 && AbcWord(54) == 0x1e84c7a3 && AbcWord(55) == 0x98e04d98
    ensures AbcWord(56) == 0x651d16a0 && AbcWord(57) == 0x62658ca1 && AbcWord(58) == 0x458544d6 && AbcWord(59) == 0x44584cb7
    ensures AbcWord(60) == 0x7ba06619 && AbcWord(61) == 0x6380aea2 && AbcWord(62) == 0xae55269 && AbcWord(63) == 0x627b49a1
  {
    hide AbcWord;
    AbcWords48();
    forall t: nat | 48 <= t < 64 { AbcNext(t); }
  }

  lemma AbcRounds64()
    ensures AbcRounds(64) == Vars(0x6b61c9e1, 0xb66c020b, 0x9523272c, 0xf5d5b051, 0x8fd4b796)
  {
    hide AbcRounds, AbcWord;
    AbcWords64();
    AbcRounds48();
    AbcStep(48); AbcStep(49); AbcStep(50); AbcStep(51); AbcStep(52); AbcStep(53); AbcStep(54); AbcStep(55);
    AbcStep(56); AbcStep(57); AbcStep(58); AbcStep(59); AbcStep(60); AbcStep(61); AbcStep(62); AbcStep(63);
  }

  lemma AbcWords80()
    ensures AbcWord(64) == 0x7cd45c9d && AbcWord(65) == 0xf0000 && AbcWord(66) == 0xfb50753a && AbcWord(67) == 0xec6765e8
    ensures AbcWord(68) == 0xba3c2be2 && AbcWord(69) == 0x60c000 && AbcWord(70) == 0x3a37cd05 && AbcWord(71) == 0x458546f4
    ensures AbcWord(72) == 0xb8599dd6 && AbcWord(73) == 0x380a1a26 && AbcWord(74) == 0x1e02203 && AbcWord(75) == 0xe7cc3456
    ensures AbcWord(76) == 0xe6e60b69 && AbcWord(77) == 0xf60a00 && AbcWord(78) == 0x5795ef4f && AbcWord(79) == 0x822e0879
  {
    hide AbcWord;
    AbcWords64();
    forall t: nat | 64 <= t < 80 { AbcNext(t); }
  }

  lemma AbcRounds80()
    ensures AbcRounds(80) == Vars(0x42541b35, 0x5738d5e1, 0x21834873, 0x681e6df6, 0xd8fdf6ad)
  {
    hide AbcRounds, AbcWord;
    AbcWords80();
    AbcRounds64();
    AbcStep(64); AbcStep(65); AbcStep(66); AbcStep(67); AbcStep(68); AbcStep(69); AbcStep(70); AbcStep(71);
    AbcStep(72); AbcStep(73); AbcStep(74); AbcStep(75); AbcStep(76); AbcStep(77); AbcStep(78); AbcStep(79);
  }

  lemma AbcPadded()
    ensures 8 * |Abc| < TWO_TO_32 * TWO_TO_32 && Padded(Abc) == AbcBlock()
  {
    hide BigEndian, ToWord;
    var s := Stretched(Abc);
    assert ZeroCount(3) == 52;
    assert |s| == 56 && s[0] == 0x61 && s[1] == 0x62 && s[2] == 0x63 && s[3] == 0x80;
    assert BigEndian(0x61, 0x62, 0x63, 0x80) == 0x61626380 by { AbcFirst(); }
    ZeroBytes();
    assert forall j :: 1 <= j < 14 ==> WordAt(s, j) == BigEndian(0, 0, 0, 0);
    AbcLength();
  }

  lemma AbcFirst()
    ensures BigEndian(0x61, 0x62, 0x63, 0x80) == 0x61626380
  {
  }

  lemma AbcLength()
    ensures ToWord(0) == 0 && ToWord(24) == 24
  {
    hide Digit;
    DigitValues();
    assert ToWord(0) == 0 && ToWord(1) == Digit(ToWord(0), true) && ToWord(3) == Digit(ToWord(1), true);
    assert ToWord(6) == Digit(ToWord(3), false) && ToWord(12) == Digit(ToWord(6), false) && ToWord(24) == Digit(ToWord(12), false);
  }

  lemma DigitValues()
    ensures Digit(0, true) == 1 && Digit(1, true) == 3
    ensures Digit(3, false) == 6 && Digit(6, false) == 12 && Digit(12, false) == 24
  {
  }

  /** The digest the standard publishes for "abc": one value that every function and constant above goes into. */
  lemma AbcDigest()
    ensures Sha1(Abc) == [0xa9993e36, 0x4706816a, 0xba3e2571, 0x7850c26c, 0x9cd0d89d]
  {
    hide Rounds, Padded;
    AbcPadded();
    AbcRounds80();
    assert Padded(Abc)[0..16] == AbcBlock();
    assert HashBlocks(Padded(Abc), 0) == InitialValue;
    assert Initial(InitialValue) == Start();
  }

  // ---------------------------------------------------------------- hashSha1

  /** The words of one tail under construction. */
  ghost predicate Holds(temp: seq<Word>, s: seq<byte>)
  {
    |temp| == 80 && |s| == 64 && forall j :: 0 <= j < 16 ==> temp[j] == WordAt(s, j)
  }

  /** `memset(temp, 0, 64)`. */
  method Clear(temp: array<Word>)
    requires temp.Length == 80
    modifies temp
    ensures temp[..16] == ZeroBlock && Holds(temp[..], Zeros(64))
  {
    hide BigEndian;
    for i := 0 to 16
      invariant forall j :: 0 <= j < i ==> temp[j] == 0
    {
      temp[i] := 0;
    }
    ZeroBytes();
  }

  /** One `temp[at >> 2] |= x << ((3 - (at & 3)) << 3)`. */
  method Put(temp: array<Word>, at: nat, x: byte, ghost s: seq<byte>)
    requires temp.Length == 80 && at < 64 && Holds(temp[..], s) && s[at] == 0
    modifies temp
    ensures Holds(temp[..], s[at := x])
  {
    hide Or, AtByte, BigEndian, WordAt;
    forall j | 0 <= j < 16 { PutByte(s, at, x, j); }
    temp[at / 4] := Or(temp[at / 4], AtByte(x, at % 4));
  }

  /** `sha1PartHash` on block `q` of `words`. */
  method Absorb(sha: array<Word>, temp: array<Word>, ghost words: seq<Word>, ghost q: nat)
    requires sha.Length == 5 && temp.Length == 80 && sha != temp && 16 * q + 16 <= |words|
    requires sha[..] == HashBlocks(words, q) && temp[..16] == words[16 * q..16 * q + 16]
    modifies sha, temp
    ensures sha[..] == HashBlocks(words, q + 1)
  {
    hide Compress;
    PartHash(sha, temp);
  }

  /** The loop over the full blocks of the message. */
  method FullBlocks(data: array<byte>, sha: array<Word>, temp: array<Word>) returns (block: nat)
    requires sha.Length == 5 && temp.Length == 80 && sha != temp && sha[..] == InitialValue
    modifies sha, temp
    ensures block == data.Length / 64 * 64 && 16 * (data.Length / 64) <= |ProgramWords(data[..])|
    ensures sha[..] == HashBlocks(ProgramWords(data[..]), data.Length / 64)
  {
    hide BigEndian, WordAt, ProgramWords;
    ghost var message, q := data[..], 0;
    block := 0;
    var end := block + 64;
    while block + 64 <= data.Length
      invariant block == 64 * q <= data.Length && end == block + 64
      invariant data[..] == message && 16 * q <= |ProgramWords(message)|
      invariant sha[..] == HashBlocks(ProgramWords(message), q)
    {
      block := ReadBlock(data, block, end, temp, q);
      FullBlock(message, q, temp[..16]);
      Absorb(sha, temp, ProgramWords(message), q);
      q := q + 1;
      end := block + 64;
    }
  }

  /** The expression of the block loop, last byte first. */
  function FromBytes(b0: byte, b1: byte, b2: byte, b3: byte): Word {
    b3 as Word | (b2 as Word << 8) | (b1 as Word << 16) | (b0 as Word << 24)
  }

  lemma ReadWord(b0: byte, b1: byte, b2: byte, b3: byte)
    ensures FromBytes(b0, b1, b2, b3) == BigEndian(b0, b1, b2, b3)
  {
  }

  method ReadBlock(data: array<byte>, from: nat, end: nat, temp: array<Word>, ghost q: nat) returns (block: nat)
    requires temp.Length == 80 && from == 64 * q && end == from + 64 <= data.Length
    modifies temp
    ensures block == end
    ensures forall k :: 0 <= k < 16 ==> temp[k] == WordAt(data[..], 16 * q + k)
  {
    hide BigEndian, FromBytes;
    var i := 0;
    block := from;
    while block < end
      invariant i <= 16 && block == from + 4 * i
      invariant forall k :: 0 <= k < i ==> temp[k] == WordAt(data[..], 16 * q + k)
    {
      ReadWord(data[block], data[block + 1], data[block + 2], data[block + 3]);
      temp[i] := FromBytes(data[block], data[block + 1], data[block + 2], data[block + 3]);
      i := i + 1;
      block := block + 4;
    }
  }

  /** The tail loop and the one bit. */
  method FillTail(data: array<byte>, block: nat, temp: array<Word>)
    requires temp.Length == 80 && block == data.Length / 64 * 64
    modifies temp
    ensures Holds(temp[..], TailBytes(data[..]))
  {
    hide BigEndian, WordAt;
    var end := data.Length - block;
    Clear(temp);
    ghost var message, rest := data[..], data[block..];
    var last := 0;
    assert rest[..0] + Zeros(64) == Zeros(64);
    while last < end
      invariant last <= end < 64 && data[..] == message
      invariant Holds(temp[..], rest[..last] + Zeros(64 - last))
    {
      Put(temp, last, data[last + block], rest[..last] + Zeros(64 - last));
      assert (rest[..last] + Zeros(64 - last))[last := data[last + block]] == rest[..last + 1] + Zeros(64 - (last + 1));
      last := last + 1;
    }
    Put(temp, last, 0x80, rest[..last] + Zeros(64 - last));
    assert (rest[..last] + Zeros(64 - last))[last := 0x80] == TailBytes(message);
  }

  /** The one or two final blocks, split at 56 leftover bytes. */
  method FinishTail(len: nat, end: nat, sha: array<Word>, temp: array<Word>, ghost message: seq<byte>)
    requires len == |message| && end == len % 64
    requires sha.Length == 5 && temp.Length == 80 && sha != temp && Holds(temp[..], TailBytes(message))
    requires 16 * (len / 64) <= |ProgramWords(message)|
    requires sha[..] == HashBlocks(ProgramWords(message), len / 64)
    modifies sha, temp
    ensures |ProgramWords(message)| % 16 == 0
    ensures sha[..] == HashBlocks(ProgramWords(message), |ProgramWords(message)| / 16)
  {
    hide *;
    ghost var words, q, first, last := TailBlocks(message);
    assert temp[..16] == first by { HeldWords(temp[..], TailBytes(message)); }
    if end >= 56 {
      Absorb(sha, temp, words, len / 64);
      Clear(temp);
    }
    temp[15] := Shl3(ToWord(len));
    assert temp[..16] == last;
    Absorb(sha, temp, words, q);
  }

  /** The words of the final blocks: `first` as filled from the message, `last` with the length in place. */
  lemma TailBlocks(message: seq<byte>) returns (words: seq<Word>, q: nat, first: seq<Word>, last: seq<Word>)
    ensures words == ProgramWords(message) && first == WordsOf(TailBytes(message)) && |first| == |last| == 16
    ensures q == |message| / 64 + (if |message| % 64 >= 56 then 1 else 0) && |words| == 16 * q + 16
    ensures last == words[16 * q..16 * q + 16] && last[15] == Shl3(ToWord(|message|))
    ensures |message| % 64 >= 56 ==> first == words[16 * (|message| / 64)..16 * (|message| / 64) + 16]
    ensures |message| % 64 >= 56 ==> last[..15] == ZeroBlock[..15]
    ensures |message| % 64 < 56 ==> last[..15] == first[..15]
  {
    hide BigEndian, WordAt, ToWord, Shl3, ProgramWords, TailBytes;
    words, q, first := ProgramWords(message), |message| / 64, WordsOf(TailBytes(message));
    if |message| % 64 >= 56 {
      q, last := q + 1, ZeroBlock[..14] + [0, Shl3(ToWord(|message|))];
      LongTail(message, first);
      LongTailLast(message, last);
    } else {
      last := first[..14] + [0, Shl3(ToWord(|message|))];
      TailEndsInZeros(message);
      ShortTail(message, last);
    }
  }

  lemma HeldWords(temp: seq<Word>, s: seq<byte>)
    requires Holds(temp, s)
    ensures temp[..16] == WordsOf(s)
  {
    hide WordAt;
  }

  lemma TailEndsInZeros(message: seq<byte>)
    requires |message| % 64 < 56
    ensures WordsOf(TailBytes(message))[14] == 0
  {
    hide BigEndian;
    ZeroBytes();
  }

  // The outer loop runs on the 32-bit `block` and `end`: it goes on while `block + 64 <= len`, and the inner loop
  // carries `block` up to `end`, if that is above it.

  function Wrapped(x: nat): nat { x % TWO_TO_32 }

  function NextBlock(block: nat): nat { if Wrapped(block + 64) > block then Wrapped(block + 64) else block }

  function BlockAfter(n: nat): nat { if n == 0 then 0 else NextBlock(BlockAfter(n - 1)) }

  lemma {:induction false} BlockStops(n: nat)
    ensures BlockAfter(n) == if n < TWO_TO_32 / 64 then 64 * n else TWO_TO_32 - 64
  {
    if n > 0 {
      BlockStops(n - 1);
    }
  }

  lemma WrapsToZero(n: nat)
    ensures n < TWO_TO_32 / 64 - 1 ==> Wrapped(64 * n + 64) == 64 * n + 64 <= TWO_TO_32 - 64
    ensures n == TWO_TO_32 / 64 - 1 ==> Wrapped(64 * n + 64) == 0
    ensures Wrapped(TWO_TO_32 - 64 + 64) == 0
  {
  }

  /** The outer loop ends exactly when the message is shorter than 2^32 - 64 bytes. */
  lemma LoopEnds(len: nat)
    requires len < TWO_TO_32
    ensures (exists n :: !(Wrapped(BlockAfter(n) + 64) <= len)) <==> len < TWO_TO_32 - 64
  {
    if len < TWO_TO_32 - 64 {
      BlockStops(len / 64);
      WrapsToZero(len / 64);
      hide Wrapped;
      assert !(Wrapped(BlockAfter(len / 64) + 64) <= len);
    } else {
      forall n ensures Wrapped(BlockAfter(n) + 64) <= len {
        BlockStops(n);
        WrapsToZero(n);
      }
    }
  }

  /** `hashSha1`.  At and above 2^32 - 64 bytes the 32-bit `block + 64` wraps and the loop does not end; below
      that the program hashes ProgramWords, which is the padded message when the length is below 2^29. */
  method HashSha1(data: array<byte>, dest: array<byte>)
    requires data.Length < TWO_TO_32 - 64 && dest.Length >= 20
    modifies dest
    ensures |ProgramWords(old(data[..]))| % 16 == 0
    ensures WordsOf(dest[..20]) == HashBlocks(ProgramWords(old(data[..])), |ProgramWords(old(data[..]))| / 16)
    ensures data.Length < 0x2000_0000 ==> WordsOf(dest[..20]) == Sha1(old(data[..]))
    ensures dest[20..] == old(dest[20..])
  {
    hide WordAt, ProgramWords, TailBytes, Padded;
    ghost var message := data[..];
    var temp, sha := new Word[80], new Word[5];
    sha[0], sha[1], sha[2], sha[3], sha[4] := 0x67452301, 0xefcdab89, 0x98badcfe, 0x10325476, 0xc3d2e1f0;
    assert sha[..] == InitialValue;
    var block := FullBlocks(data, sha, temp);
    FillTail(data, block, temp);
    FinishTail(data.Length, data.Length - block, sha, temp, message);
    ProgramWordsAreStandard(message);
    Output(sha, dest);
  }

  /** The loop that writes the digest, most significant byte of each word first. */
  method Output(sha: array<Word>, dest: array<byte>)
    requires sha.Length == 5 && dest.Length >= 20
    modifies dest
    ensures WordsOf(dest[..20]) == sha[..]
    ensures dest[20..] == old(dest[20..])
  {
    hide BigEndian, ByteOf;
    var i := 19;
    while i >= 0
      invariant -1 <= i < 20
      invariant forall k :: i < k < 20 ==> dest[k] == ByteOf(sha[k / 4], k % 4)
      invariant dest[20..] == old(dest[20..])
    {
      assert (3 - i) % 4 == 3 - i % 4;
      dest[i] := ByteOf(sha[i / 4], i % 4);
      i := i - 1;
    }
    forall j | 0 <= j < 5
      ensures WordAt(dest[..20], j) == sha[j]
    {
      FourBytes(sha[j]);
    }
  }
}
