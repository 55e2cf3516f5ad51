/**
 The machine arithmetic under the queues: indices of 64 bits that wrap around, and sizes that are powers
 of two.  The other modules use unbounded indices; the lemmas here say when that is the same.
 */
module Circular {
  import opened Blocks
  import opened Modular
  import RingQueue

  const WORD := 0x1_0000_0000_0000_0000
  const HALF := 0x8000_0000_0000_0000

  /** An unbounded index as the machine keeps it. */
  function Word(x: int): (w: nat)
    ensures w < WORD
  {
    x % WORD
  }

  /** circular_less_than (Common/concurrentqueue.h). */
  predicate CircularLess(a: nat, b: nat) {
    Word(a - b) > HALF
  }

  /** The comparison agrees with the true order of indices that are at most half the range apart, except
      when the smaller one comes exactly half the range before the other. */
  lemma CircularLessIsOrder(x: int, y: int)
    requires -HALF <= x - y <= HALF
    ensures (CircularLess(Word(x), Word(y)) <==> x < y) <==> y - x != HALF
  {
    WordDifference(x, y);
    if x < y {
      DivModIs(x - y, -1, x - y + WORD, WORD);
    } else {
      DivModIs(x - y, 0, x - y, WORD);
    }
  }

  lemma WordDifference(x: int, y: int)
    ensures Word(Word(x) - Word(y)) == Word(x - y)
  {
    ModShift(x, 0 - Word(y), WORD);
    var q := y / WORD;
    assert y == WORD * q + Word(y);
    DivModIs(x - Word(y), (x - y) / WORD + q, (x - y) % WORD, WORD);
  }

  /** What both kinds of bulk enqueue compute to find out how many blocks they need. */
  function BlockBaseDiff(startTailIndex: nat, count: nat): nat {
    Word(BlockBase(Word(startTailIndex + count - 1)) - BlockBase(Word(startTailIndex - 1)))
  }

  lemma BlockBaseWord(x: int)
    ensures BlockBase(Word(x)) == BlockBase(x) - x / WORD * WORD
  {
    var q, w := x / WORD, Word(x);
    assert x == WORD * q + w && WORD == 32 * 0x800_0000_0000_0000;
    assert w == 32 * (w / 32) + w % 32;
    DivModIs(x, 0x800_0000_0000_0000 * q + w / 32, w % 32, 32);
  }

  lemma WordDifferenceIs(d: int, a: int, b: int, w: nat)
    requires d == a * WORD - b * WORD + w && w < WORD
    ensures Word(d) == w
  {
    assert a * WORD - b * WORD == WORD * (a - b);
    DivModIs(d, a - b, w, WORD);
  }

  /** It is the number of blocks started, also when it starts from index 0 and the subtraction wraps. */
  lemma BlockBaseDiffCounts(startTailIndex: nat, count: nat)
    requires startTailIndex < WORD && 1 <= count && 32 * BlockStarts(startTailIndex, count) < WORD
    ensures BlockBaseDiff(startTailIndex, count) == 32 * BlockStarts(startTailIndex, count)
  {
    hide BlockBase, BlockStarts;
    var x, y := startTailIndex + count - 1, startTailIndex - 1;
    BlockBaseWord(x);
    BlockBaseWord(y);
    BaseDiff(startTailIndex, count);
    WordDifferenceIs(BlockBase(Word(x)) - BlockBase(Word(y)), y / WORD, x / WORD, 32 * BlockStarts(startTailIndex, count));
  }

  /** A difference of words, read as a signed number. */
  function Signed(w: nat): int
    requires w < WORD
  {
    if w < HALF then w else w - WORD
  }

  lemma SignedDifference(x: int, y: int)
    requires -HALF <= x - y < HALF
    ensures Signed(Word(Word(x) - Word(y))) == x - y
  {
    WordDifference(x, y);
    if x < y {
      DivModIs(x - y, -1, x - y + WORD, WORD);
    } else {
      DivModIs(x - y, 0, x - y, WORD);
    }
  }

  /** Division by the block size as the machine does it, towards zero. */
  function TruncatedBy32(x: int): int {
    if x >= 0 then x / 32 else -((-x) / 32)
  }

  /** The slot where a lookup ends, as both block indexes compute it: a signed difference of bases, divided,
      added to a slot as a word and reduced to the size of the index. */
  function LookupSlotWord(slot: nat, blockBase: nat, headBase: nat, size: nat): nat
    requires size > 0
  {
    var offset := Word(TruncatedBy32(Signed(Word(blockBase - headBase))));
    Word(slot + offset) % size
  }

  /** It is the slot that unbounded arithmetic gives, for sizes that divide the range of words. */
  lemma LookupSlotAgrees(slot: nat, blockBase: int, headBase: int, size: nat)
    requires size > 0 && WORD % size == 0
    requires blockBase % 32 == 0 && headBase % 32 == 0 && -HALF <= blockBase - headBase < HALF
    ensures LookupSlotWord(slot, Word(blockBase), Word(headBase), size) == Wrap(slot + (blockBase - headBase) / 32, size)
  {
    hide Word, Signed, TruncatedBy32, Wrap;
    var q := (blockBase - headBase) / 32;
    SignedDifference(blockBase, headBase);
    BasesApart(blockBase, headBase);
    TruncatedMultiple(q);
    WordOfSum(slot, q);
    WordMod(slot + q, size);
    WrapIsMod(slot + q, size);
    LookupSlotIs(slot, Word(blockBase), Word(headBase), size, q);
  }

  lemma BasesApart(x: int, y: int)
    requires x % 32 == 0 && y % 32 == 0
    ensures x - y == 32 * ((x - y) / 32)
  {
  }

  lemma TruncatedMultiple(q: int)
    ensures TruncatedBy32(32 * q) == q
  {
  }

  lemma LookupSlotIs(slot: nat, blockBase: nat, headBase: nat, size: nat, q: int)
    requires size > 0 && TruncatedBy32(Signed(Word(blockBase - headBase))) == q
    ensures LookupSlotWord(slot, blockBase, headBase, size) == Word(slot + Word(q)) % size
  {
    hide Word, Signed, TruncatedBy32;
  }

  lemma WordOfSum(x: int, y: int)
    ensures Word(x + Word(y)) == Word(x + y)
  {
    ModShift(y, x, WORD);
    assert Word(y) + x == x + Word(y) && y + x == x + y;
  }

  /** Reducing to a word first does not matter for a size that divides the range. */
  lemma WordMod(x: int, size: nat)
    requires size > 0 && WORD % size == 0
    ensures Word(x) % size == x % size
  {
    var m := WORD / size;
    assert WORD == size * m by {
      assert WORD == size * (WORD / size) + WORD % size;
    }
    var k := x / WORD;
    assert x == WORD * k + Word(x);
    assert WORD * k == size * (m * k);
    var r, q := Word(x) % size, Word(x) / size;
    assert Word(x) == size * q + r;
    assert size * (m * k + q) == size * (m * k) + size * q;
    DivModIs(x, m * k + q, r, size);
  }

  // ---------------------------------------------------------------- words as numbers

  function Half(x: bv64): bv64 {
    x >> 1
  }

  predicate Odd(x: bv64) {
    x & 1 == 1
  }

  /** The number that a word stands for, bit by bit. */
  ghost function Value(x: bv64): nat
    decreases x
  {
    if x == 0 then 0 else 2 * Value(Half(x)) + if Odd(x) then 1 else 0
  }

  lemma ValueStep(x: bv64)
    ensures Value(x) == 2 * Value(Half(x)) + if Odd(x) then 1 else 0
  {
  }

  lemma ValueOne()
    ensures Value(1) == 1 && Value(0) == 0
  {
  }

  function Next(x: bv64): bv64 {
    x + 1
  }

  lemma NextOfEven(x: bv64)
    requires !Odd(x)
    ensures Half(Next(x)) == Half(x) && Odd(Next(x))
  {
  }

  lemma NextOfOdd(x: bv64)
    requires Odd(x) && x != 0xFFFF_FFFF_FFFF_FFFF
    ensures Half(Next(x)) == Next(Half(x)) && !Odd(Next(x)) && Half(x) != 0xFFFF_FFFF_FFFF_FFFF
  {
  }

  /** Adding one to a word is adding one to the number, where it does not wrap around. */
  lemma {:induction false} ValueNext(x: bv64)
    requires x != 0xFFFF_FFFF_FFFF_FFFF
    ensures Value(Next(x)) == Value(x) + 1
    decreases Value(x)
  {
    hide Value, Half, Odd, Next;
    ValueStep(x);
    ValueStep(Next(x));
    if Odd(x) {
      NextOfOdd(x);
      ValueNext(Half(x));
    } else {
      NextOfEven(x);
    }
  }

  lemma HalvesSame(x: bv64, y: bv64)
    requires Half(x) == Half(y) && Odd(x) == Odd(y)
    ensures x == y
  {
  }

  lemma HalvesLess(x: bv64, y: bv64)
    requires Below(Half(x), Half(y))
    ensures Below(x, y)
  {
  }

  lemma LowBitLess(x: bv64, y: bv64)
    requires Half(x) == Half(y) && !Odd(x) && Odd(y)
    ensures Below(x, y)
  {
  }

  predicate Below(x: bv64, y: bv64) {
    x < y
  }

  /** Different words stand for different numbers. */
  lemma {:induction false} Same(x: bv64, y: bv64)
    requires Value(x) == Value(y)
    ensures x == y
    decreases Value(y)
  {
    hide Value, Half, Odd;
    if x != 0 {
      ValuePositive(x);
    }
    if y != 0 {
      ValuePositive(y);
    }
    ValueOne();
    if Value(y) != 0 {
      ValueStep(x);
      ValueStep(y);
      Same(Half(x), Half(y));
      HalvesSame(x, y);
    }
  }

  /** Words are in the order of their numbers. */
  lemma {:induction false} Less(x: bv64, y: bv64)
    requires Value(x) < Value(y)
    ensures Below(x, y)
    decreases Value(y)
  {
    hide Value, Half, Odd, Below;
    ValueStep(x);
    ValueStep(y);
    if Value(Half(x)) < Value(Half(y)) {
      Less(Half(x), Half(y));
      HalvesLess(x, y);
    } else {
      Same(Half(x), Half(y));
      LowBitLess(x, y);
    }
  }

  lemma NotBoth(x: bv64, y: bv64)
    ensures !(Below(x, y) && Below(y, x)) && !Below(x, x)
  {
  }

  lemma BelowIs(x: bv64, y: bv64)
    ensures Below(x, y) <==> Value(x) < Value(y)
  {
    hide Value, Below;
    NotBoth(x, y);
    if Value(x) < Value(y) {
      Less(x, y);
    } else if Value(y) < Value(x) {
      Less(y, x);
    } else {
      Same(x, y);
    }
  }

  function Or(x: bv64, y: bv64): bv64 {
    x | y
  }

  lemma HalfOfOr(x: bv64, y: bv64)
    ensures Half(Or(x, y)) == Or(Half(x), Half(y))
  {
  }

  lemma OddOr(x: bv64, y: bv64)
    requires Odd(x)
    ensures Odd(Or(x, y))
  {
  }

  lemma {:induction false} OrValue(x: bv64, y: bv64)
    ensures Value(Or(x, y)) >= Value(x)
    decreases Value(x)
  {
    hide Value, Half, Odd, Or;
    HalfOfOr(x, y);
    ValueStep(x);
    ValueStep(Or(x, y));
    if Odd(x) {
      OddOr(x, y);
    }
    if Value(x) > 0 {
      OrValue(Half(x), Half(y));
    }
  }

  lemma {:induction false} ValuePositive(x: bv64)
    requires x != 0
    ensures Value(x) > 0
    decreases x
  {
    if x > 1 {
      ValuePositive(x >> 1);
    }
  }

  // ---------------------------------------------------------------- powers of two

  /** The highest bit of m and all the bits below it, in six steps. */
  function Smear(m: bv64): bv64 {
    var b := m | (m >> 1);
    var c := b | (b >> 2);
    var d := c | (c >> 4);
    var e := d | (d >> 8);
    var f := e | (e >> 16);
    f | (f >> 32)
  }

  /** ceil_to_pow_2 and roundUpToPowerOf2. */
  function RoundUp(n: bv64): bv64 {
    Smear(n - 1) + 1
  }

  predicate PowerOfTwo(n: bv64) {
    n != 0 && n & (n - 1) == 0
  }

  /** A power of two that is not below n, while half of it is. */
  predicate LeastPower(p: bv64, n: bv64) {
    PowerOfTwo(p) && p >= n && p >> 1 < n
  }

  /** All ones from some bit down. */
  predicate Ones(s: bv64) {
    s & Next(s) == 0
  }

  const TOP: bv64 := 0x8000_0000_0000_0000
  const ALL: bv64 := 0xFFFF_FFFF_FFFF_FFFF

  lemma SmearOnes(m: bv64)
    ensures Ones(Smear(m))
  {
  }

  lemma SmearShifted(m: bv64)
    ensures Or(Half(Smear(m)), m) == Smear(m) && Or(m, Smear(m)) == Smear(m) && (m == 0 ==> Smear(m) == 0)
  {
  }

  lemma SmearTop(m: bv64)
    requires m & TOP == 0
    ensures m != ALL && Smear(m) != ALL
  {
  }

  lemma PreviousTop(n: bv64)
    requires 0 < n <= TOP
    ensures (n - 1) & TOP == 0 && Next(n - 1) == n
  {
  }

  lemma OnesAbsorb(ones: bv64, m: bv64)
    requires Ones(ones) && !Below(ones, m)
    ensures Or(ones, m) == ones
  {
  }

  lemma OnesShifted(ones: bv64)
    requires Ones(ones)
    ensures Ones(Half(ones)) && (ones != 0 ==> Half(ones) != ones)
  {
  }

  lemma OnesPower(ones: bv64)
    requires Ones(ones) && ones != ALL
    ensures PowerOfTwo(Next(ones))
  {
  }

  lemma OnesHalf(ones: bv64)
    requires Ones(ones) && ones != 0 && ones != ALL
    ensures Half(Next(ones)) == Next(Half(ones)) && Half(ones) != ALL
  {
  }

  lemma NextOfZero()
    ensures Next(0) == 1 && Half(1) == 0
  {
  }

  lemma OrZero(s: bv64, m: bv64)
    requires Or(m, s) == s && m != 0
    ensures s != 0
  {
  }

  /** All ones are less than any word that they have to be joined with to become more. */
  lemma HalfOfOnes(m: bv64, s: bv64)
    requires Ones(s) && Or(Half(s), m) == s && s != 0
    ensures Value(Half(s)) < Value(m)
  {
    hide Value, Half, Or, Ones, Below;
    var h := Half(s);
    OnesShifted(s);
    if !Below(h, m) {
      OnesAbsorb(h, m);
    }
    BelowIs(h, m);
  }

  lemma HalfBelow(s: bv64, m: bv64)
    requires Ones(s) && s != ALL && m != ALL
    requires if s == 0 then m == 0 else Value(Half(s)) < Value(m)
    ensures Below(Half(Next(s)), Next(m))
  {
    hide Value, Half, Ones, Next, Below;
    ValueNext(m);
    if s == 0 {
      NextOfZero();
      ValueOne();
      BelowIs(Half(Next(s)), Next(m));
    } else {
      OnesHalf(s);
      ValueNext(Half(s));
      BelowIs(Half(Next(s)), Next(m));
    }
  }

  lemma NextAbove(s: bv64, m: bv64)
    requires s != ALL && m != ALL && Value(m) <= Value(s)
    ensures !Below(Next(s), Next(m))
  {
    hide Value, Next, Below;
    ValueNext(m);
    ValueNext(s);
    BelowIs(Next(s), Next(m));
  }

  lemma IsLeastPower(p: bv64, n: bv64)
    requires PowerOfTwo(p) && !Below(p, n) && Below(Half(p), n)
    ensures LeastPower(p, n)
  {
  }

  lemma SmearNext(m: bv64)
    requires m & TOP == 0
    ensures LeastPower(Next(Smear(m)), Next(m))
  {
    hide Value, Half, Ones, Next, Or, Smear, PowerOfTwo, LeastPower, Below;
    var s := Smear(m);
    SmearOnes(m);
    SmearShifted(m);
    SmearTop(m);
    OrValue(m, s);
    if s != 0 {
      HalfOfOnes(m, s);
    } else if m != 0 {
      OrZero(s, m);
    }
    HalfBelow(s, m);
    NextAbove(s, m);
    OnesPower(s);
    IsLeastPower(Next(s), Next(m));
  }

  lemma RoundUpIs(n: bv64)
    ensures RoundUp(n) == Next(Smear(n - 1))
  {
    hide Smear;
  }

  /** It is the least power of two that is not below n. */
  lemma RoundUpIsLeast(n: bv64)
    requires 0 < n <= 0x8000_0000_0000_0000
    ensures LeastPower(RoundUp(n), n)
  {
    hide Next, Smear, LeastPower, RoundUp;
    PreviousTop(n);
    SmearNext(n - 1);
    RoundUpIs(n);
  }

  /** Beyond the greatest power of two, and for 0, it comes to 0. */
  lemma RoundUpTooLarge(n: bv64)
    ensures RoundUp(n) == 0 <==> n == 0 || n > 0x8000_0000_0000_0000
  {
  }

  /** The ring has two slots at least, which it needs, exactly when that is asked for. */
  lemma RoundUpAtLeastTwo(n: bv64)
    requires 0 < n <= 0x8000_0000_0000_0000
    ensures RoundUp(n) >= 2 <==> n >= 2
  {
  }

  lemma HalfOfPower(x: bv64, size: bv64)
    requires PowerOfTwo(size) && size > 1
    ensures PowerOfTwo(size >> 1) && size & 1 == 0 && size >> 1 < size
    ensures (x & (size - 1)) >> 1 == (x >> 1) & ((size >> 1) - 1) && (x & (size - 1)) & 1 == x & 1
  {
  }

  /** Masking with a power of two less one leaves the remainder of a division. */
  lemma {:induction false} MaskDivides(x: bv64, size: bv64) returns (q: nat)
    requires PowerOfTwo(size)
    ensures IsDivision(Value(x), Value(size), q, Value(x & (size - 1)))
    decreases size
  {
    hide PowerOfTwo, Value, IsDivision;
    PowerNotZero(size);
    if size == 1 {
      ValueOne();
      assert x & (size - 1) == 0;
      q := Value(x);
      DivisionByOne(q);
    } else {
      HalfOfPower(x, size);
      q := MaskDivides(x >> 1, size >> 1);
      var bit := MaskStep(x, size);
      DivisionDoubled(Value(x >> 1), Value(size >> 1), q, Value((x >> 1) & ((size >> 1) - 1)), bit);
    }
  }

  predicate IsDivision(x: nat, n: nat, q: nat, rest: nat) {
    x == n * q + rest && rest < n
  }

  lemma DivisionByOne(x: nat)
    ensures IsDivision(x, 1, x, 0)
  {
  }

  lemma DivisionDoubled(x: nat, n: nat, q: nat, rest: nat, bit: nat)
    requires IsDivision(x, n, q, rest) && bit < 2
    ensures IsDivision(2 * x + bit, 2 * n, q, 2 * rest + bit)
  {
  }

  /** Masking with a power of two less one is the remainder. */
  lemma MaskIsRemainder(x: bv64, size: bv64)
    requires PowerOfTwo(size)
    ensures Value(size) > 0 && Value(x & (size - 1)) == Value(x) % Value(size)
  {
    hide PowerOfTwo, Value;
    var q := MaskDivides(x, size);
    DivModIs(Value(x), q, Value(x & (size - 1)), Value(size));
  }

  lemma MaskStep(x: bv64, size: bv64) returns (bit: nat)
    requires PowerOfTwo(size) && size > 1
    ensures bit < 2 && Value(x) == 2 * Value(x >> 1) + bit && Value(size) == 2 * Value(size >> 1)
    ensures Value(x & (size - 1)) == 2 * Value((x >> 1) & ((size >> 1) - 1)) + bit
  {
    hide PowerOfTwo, Value;
    HalfOfPower(x, size);
    ValueSplit(x, x >> 1, x & 1);
    ValueSplit(size, size >> 1, 0);
    ValueSplit(x & (size - 1), (x >> 1) & ((size >> 1) - 1), x & 1);
    bit := if x & 1 == 1 then 1 else 0;
  }

  lemma ValueSplit(x: bv64, half: bv64, low: bv64)
    requires x >> 1 == half && x & 1 == low
    ensures Value(x) == 2 * Value(half) + if low == 1 then 1 else 0
  {
  }

  lemma PowerNotZero(size: bv64)
    requires PowerOfTwo(size)
    ensures size > 0
  {
  }

  lemma ShiftBack(x: bv64)
    requires x < 0x8000_0000_0000_0000
    ensures (x << 1) >> 1 == x && (x << 1) & 1 == 0
  {
  }

  lemma Twice(x: bv64)
    requires x < 0x8000_0000_0000_0000
    ensures Value(x << 1) == 2 * Value(x)
  {
    hide Value;
    ShiftBack(x);
    ValueStep(x << 1);
  }

  lemma ShiftTwice(x: bv64)
    ensures (x << 1) << 1 == x << 2 && (x << 2) << 2 == x << 4 && (x << 4) << 4 == x << 8
    ensures x < 0x4000_0000_0000_0000 ==> x << 1 < 0x8000_0000_0000_0000
    ensures x < 0x1000_0000_0000_0000 ==> x << 2 < 0x4000_0000_0000_0000
    ensures x < 0x0100_0000_0000_0000 ==> x << 4 < 0x1000_0000_0000_0000
  {
  }

  lemma Times4(x: bv64)
    requires x < 0x4000_0000_0000_0000
    ensures Value(x << 2) == 4 * Value(x)
  {
    hide Value;
    ShiftTwice(x);
    Twice(x);
    Twice(x << 1);
  }

  lemma Times16(x: bv64)
    requires x < 0x1000_0000_0000_0000
    ensures Value(x << 4) == 16 * Value(x)
  {
    hide Value;
    ShiftTwice(x);
    Times4(x);
    Times4(x << 2);
  }

  lemma Times256(x: bv64)
    requires x < 0x0100_0000_0000_0000
    ensures Value(x << 8) == 256 * Value(x)
  {
    hide Value;
    ShiftTwice(x);
    Times16(x);
    Times16(x << 4);
  }

  lemma ValueTop()
    ensures 2 * Value(0x8000_0000_0000_0000) == WORD
  {
    hide Value;
    ValueOne();
    Times256(0x1);
    Times256(0x100);
    Times256(0x1_0000);
    Times256(0x100_0000);
    Times256(0x1_0000_0000);
    Times256(0x100_0000_0000);
    Times256(0x1_0000_0000_0000);
    Twice(0x0100_0000_0000_0000);
    Twice(0x0200_0000_0000_0000);
    Twice(0x0400_0000_0000_0000);
    Twice(0x0800_0000_0000_0000);
    Twice(0x1000_0000_0000_0000);
    Twice(0x2000_0000_0000_0000);
    Twice(0x4000_0000_0000_0000);
  }

  lemma DoubleOfPower(size: bv64)
    requires PowerOfTwo(size)
    ensures size <= 0x8000_0000_0000_0000
    ensures size < 0x8000_0000_0000_0000 ==> PowerOfTwo(size << 1) && size << 1 > size
  {
  }

  /** A power of two divides the range of words. */
  lemma {:induction false} PowerDivides(size: bv64)
    requires PowerOfTwo(size)
    ensures Value(size) > 0 && WORD % Value(size) == 0
    decreases 0xFFFF_FFFF_FFFF_FFFF - size
  {
    hide Value;
    PowerNotZero(size);
    ValuePositive(size);
    DoubleOfPower(size);
    var v := Value(size);
    if size == 0x8000_0000_0000_0000 {
      ValueTop();
      DivModIs(WORD, 2, 0, v);
    } else {
      PowerDivides(size << 1);
      Twice(size);
      var c := WORD / (2 * v);
      assert WORD == 2 * v * c;
      assert v * (2 * c) == 2 * v * c;
      DivModIs(WORD, 2 * c, 0, v);
    }
  }

  /** The slot that the ring computes from the word of a position is the slot of the position. */
  lemma MaskIsIndex(pos: nat, w: bv64, size: bv64)
    requires PowerOfTwo(size) && Value(w) == Word(pos)
    ensures Value(size) > 0 && Value(w & (size - 1)) == RingQueue.Index(pos, Value(size))
  {
    hide Value;
    MaskIsRemainder(w, size);
    PowerDivides(size);
    WordMod(pos, Value(size));
  }
}
