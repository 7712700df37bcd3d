/** The bytes and the 32-bit words of the kernel's AES, which are a field and registers as the
    cipher needs them. */
module AesWords {
  import opened AesAlgebra
  import opened AesRounds
  import opened AesRegisters
  import opened Aes
  import opened AesContext

  // ----- Bytes -----

  /** Multiplication by x, section 4.2.1 of FIPS 197. */
  function Xtime(b: bv8): bv8 {
    var h := b >> 7;
    (b << 1) ^ h ^ (h << 1) ^ (h << 3) ^ (h << 4)
  }

  lemma XtimeReduces(b: bv8)
    ensures Xtime(b) == if b < 0x80 then b << 1 else (b << 1) ^ 0x1b
  {
  }

  lemma XtimeXor(a: bv8, b: bv8)
    ensures Xtime(a ^ b) == Xtime(a) ^ Xtime(b)
  {
  }

  function Xor8(a: bv8, b: bv8): bv8 {
    a ^ b
  }

  function Gf(): Field<bv8> {
    Field(Xor8, 0, Xtime)
  }

  lemma XorExchanges(a: bv8, b: bv8, c: bv8, d: bv8)
    ensures Xor8(Xor8(a, b), Xor8(c, d)) == Xor8(Xor8(a, c), Xor8(b, d))
  {
    calc {
      Xor8(Xor8(a, b), Xor8(c, d));
      Xor8(a ^ b, c ^ d);
      (a ^ b) ^ (c ^ d);
      (a ^ c) ^ (b ^ d);
      Xor8(a ^ c, b ^ d);
      Xor8(Xor8(a, c), Xor8(b, d));
    }
  }

  // The multiples of a byte.

  function Times3(b: bv8): bv8 { Xor8(Xtime(b), b) }
  function Times4(b: bv8): bv8 { Xtime(Xtime(b)) }
  function Times8(b: bv8): bv8 { Xtime(Times4(b)) }
  function Times9(b: bv8): bv8 { Xor8(Times8(b), b) }
  function TimesB(b: bv8): bv8 { Xor8(Xor8(Times8(b), Xtime(b)), b) }
  function TimesD(b: bv8): bv8 { Xor8(Xor8(Times8(b), Times4(b)), b) }
  function TimesE(b: bv8): bv8 { Xor8(Xor8(Times8(b), Times4(b)), Xtime(b)) }

  lemma TimesInverse0(b: bv8)
    ensures Xor8(Xor8(TimesE(Xtime(b)), TimesB(b)), Xor8(TimesD(b), Times9(Times3(b)))) == b
  {
  }

  lemma TimesInverse1(b: bv8)
    ensures Xor8(Xor8(TimesE(Times3(b)), TimesB(Xtime(b))), Xor8(TimesD(b), Times9(b))) == 0
  {
  }

  lemma TimesInverse2(b: bv8)
    ensures Xor8(Xor8(TimesE(b), TimesB(Times3(b))), Xor8(TimesD(Xtime(b)), Times9(b))) == 0
  {
  }

  lemma TimesInverse3(b: bv8)
    ensures Xor8(Xor8(TimesE(b), TimesB(b)), Xor8(TimesD(Times3(b)), Times9(Xtime(b)))) == 0
  {
  }

  lemma GfSum(a: bv8, b: bv8, c: bv8, d: bv8)
    ensures Sum4(Gf(), a, b, c, d) == Xor8(Xor8(a, b), Xor8(c, d))
  {
  }

  lemma Gf3(b: bv8)
    ensures Mul3(Gf(), b) == Times3(b)
  {
  }

  lemma Gf8(b: bv8)
    ensures Mul4(Gf(), b) == Times4(b) && Mul8(Gf(), b) == Times8(b)
  {
  }

  lemma Gf9(b: bv8)
    ensures Mul9(Gf(), b) == Times9(b)
  {
    Gf8(b);
  }

  lemma GfB(b: bv8)
    ensures MulB(Gf(), b) == TimesB(b)
  {
    Gf8(b);
  }

  lemma GfD(b: bv8)
    ensures MulD(Gf(), b) == TimesD(b)
  {
    Gf8(b);
  }

  lemma GfE(b: bv8)
    ensures MulE(Gf(), b) == TimesE(b)
  {
    Gf8(b);
  }

  lemma GfInverse0(b: bv8)
    ensures Inverse0(Gf(), b)
  {
    Gf3(b);
    GfE(Xtime(b));
    GfB(b);
    GfD(b);
    Gf9(Times3(b));
    GfSum(TimesE(Xtime(b)), TimesB(b), TimesD(b), Times9(Times3(b)));
    TimesInverse0(b);
  }

  lemma GfInverse1(b: bv8)
    ensures Inverse1(Gf(), b)
  {
    Gf3(b);
    GfE(Times3(b));
    GfB(Xtime(b));
    GfD(b);
    Gf9(b);
    GfSum(TimesE(Times3(b)), TimesB(Xtime(b)), TimesD(b), Times9(b));
    TimesInverse1(b);
  }

  lemma GfInverse2(b: bv8)
    ensures Inverse2(Gf(), b)
  {
    Gf3(b);
    GfE(b);
    GfB(Times3(b));
    GfD(Xtime(b));
    Gf9(b);
    GfSum(TimesE(b), TimesB(Times3(b)), TimesD(Xtime(b)), Times9(b));
    TimesInverse2(b);
  }

  lemma GfInverse3(b: bv8)
    ensures Inverse3(Gf(), b)
  {
    Gf3(b);
    GfE(b);
    GfB(b);
    GfD(Times3(b));
    Gf9(Xtime(b));
    GfSum(TimesE(b), TimesB(b), TimesD(Times3(b)), Times9(Xtime(b)));
    TimesInverse3(b);
  }

  lemma GfAdditive(a: bv8, b: bv8)
    ensures Additive(Gf(), a, b)
  {
    calc {
      Xtime(Xor8(a, b));
      Xtime(a ^ b);
      { XtimeXor(a, b); }
      Xtime(a) ^ Xtime(b);
      Xor8(Xtime(a), Xtime(b));
    }
  }

  lemma GfCommutes(a: bv8, b: bv8)
    ensures Commutes(Gf(), a, b)
  {
    calc {
      Xor8(a, b);
      a ^ b;
      b ^ a;
      Xor8(b, a);
    }
  }

  lemma GfNeutral(a: bv8)
    ensures Neutral(Gf(), a)
  {
  }

  lemma GfCancels(a: bv8, k: bv8)
    ensures Cancels(Gf(), a, k)
  {
    calc {
      Xor8(Xor8(a, k), k);
      Xor8(a ^ k, k);
      (a ^ k) ^ k;
      a;
    }
  }

  lemma GfExchanges(a: bv8, b: bv8, c: bv8, d: bv8)
    ensures Exchanges(Gf(), a, b, c, d)
  {
    XorExchanges(a, b, c, d);
  }

  lemma GfLawful()
    ensures Lawful(Gf())
  {
    forall a, b, c, d ensures Exchanges(Gf(), a, b, c, d) {
      GfExchanges(a, b, c, d);
    }
    forall a, b ensures Commutes(Gf(), a, b) && Additive(Gf(), a, b) {
      GfCommutes(a, b);
      GfAdditive(a, b);
    }
    forall a ensures Neutral(Gf(), a) {
      GfNeutral(a);
    }
    forall b ensures Inverse0(Gf(), b) && Inverse1(Gf(), b) && Inverse2(Gf(), b) && Inverse3(Gf(), b) {
      GfInverse0(b);
      GfInverse1(b);
      GfInverse2(b);
      GfInverse3(b);
    }
  }

  // ----- Words -----

  /** A column in a register: row 0 in the low byte. */
  function Word(c: Col<bv8>): bv32 {
    (c.b0 as bv32) | ((c.b1 as bv32) << 8) | ((c.b2 as bv32) << 16) | ((c.b3 as bv32) << 24)
  }

  function Byte0(x: bv32): bv8 { (x & 0xff) as bv8 }
  function Byte1(x: bv32): bv8 { ((x >> 8) & 0xff) as bv8 }
  function Byte2(x: bv32): bv8 { ((x >> 16) & 0xff) as bv8 }
  function Byte3(x: bv32): bv8 { ((x >> 24) & 0xff) as bv8 }

  function Split(x: bv32): Col<bv8> {
    Col(Byte0(x), Byte1(x), Byte2(x), Byte3(x))
  }

  lemma SplitWord(c: Col<bv8>)
    ensures Split(Word(c)) == c
  {
  }

  lemma WordSplit(x: bv32)
    ensures Word(Split(x)) == x
  {
  }

  function Xor32(x: bv32, y: bv32): bv32 {
    x ^ y
  }

  /** ror32 by 8, 16 and 24 */
  function Ror8(x: bv32): bv32 { (x >> 8) | (x << 24) }
  function Ror16(x: bv32): bv32 { (x >> 16) | (x << 16) }
  function Ror24(x: bv32): bv32 { (x >> 24) | (x << 8) }

  /** star_x: four multiplications by x at once. */
  function StarX(x: bv32): bv32 {
    ((x & 0x7f7f7f7f) << 1) ^ (((x & 0x80808080) >> 7) * 0x1b)
  }

  function Words(): Registers<bv8, bv32> {
    Registers(Gf(), Xor32, StarX, Ror8, Ror16, Ror24, Split)
  }

  lemma SplitRor8(x: bv32)
    ensures Split(Ror8(x)) == Col(Byte1(x), Byte2(x), Byte3(x), Byte0(x))
  {
  }

  lemma SplitRor16(x: bv32)
    ensures Split(Ror16(x)) == Col(Byte2(x), Byte3(x), Byte0(x), Byte1(x))
  {
  }

  lemma SplitRor24(x: bv32)
    ensures Split(Ror24(x)) == Col(Byte3(x), Byte0(x), Byte1(x), Byte2(x))
  {
  }

  lemma SplitStar(x: bv32)
    ensures Split(StarX(x)) == Col(Xtime(Byte0(x)), Xtime(Byte1(x)), Xtime(Byte2(x)), Xtime(Byte3(x)))
  {
  }

  lemma SplitXor(x: bv32, y: bv32)
    ensures Split(Xor32(x, y))
            == Col(Xor8(Byte0(x), Byte0(y)), Xor8(Byte1(x), Byte1(y)), Xor8(Byte2(x), Byte2(y)),
                   Xor8(Byte3(x), Byte3(y)))
  {
  }

  lemma WordsXor(x: bv32, y: bv32)
    ensures XorSplits(Words(), x, y)
  {
    SplitXor(x, y);
  }

  lemma WordsStar(x: bv32)
    ensures StarSplits(Words(), x)
  {
    SplitStar(x);
  }

  lemma WordsRor(x: bv32)
    ensures RorSplits(Words(), x)
  {
    SplitRor8(x);
    SplitRor16(x);
    SplitRor24(x);
  }

  lemma WordsSwap(x: bv32, y: bv32)
    ensures XorCommutes(Words(), x, y)
  {
    calc {
      Xor32(x, y);
      x ^ y;
      y ^ x;
      Xor32(y, x);
    }
  }

  lemma WordsHoldColumns()
    ensures HoldColumns(Words())
  {
    GfLawful();
    forall x, y ensures XorSplits(Words(), x, y) && XorCommutes(Words(), x, y) {
      WordsXor(x, y);
      WordsSwap(x, y);
    }
    forall x ensures StarSplits(Words(), x) && RorSplits(Words(), x) {
      WordsStar(x);
      WordsRor(x);
    }
  }

  // ----- Tables -----

  /** A table: the column a substituted byte contributes, as a word. */
  function Table(column: bv8 -> Col<bv8>, s: bv8 -> bv8): bv8 -> bv32 {
    b => Word(column(s(b)))
  }

  /** The sixteen tables, by their defining formulas over a substitution and its inverse. */
  function Kernel(s: bv8 -> bv8, inv: bv8 -> bv8): Tables<bv8, bv32> {
    Tables(Words(), Box(Gf(), s, inv),
           Table(Mixed0(Gf()), s), Table(Mixed1(Gf()), s), Table(Mixed2(Gf()), s), Table(Mixed3(Gf()), s),
           Table(Alone0(Gf()), s), Table(Alone1(Gf()), s), Table(Alone2(Gf()), s), Table(Alone3(Gf()), s),
           Table(Unmixed0(Gf()), inv), Table(Unmixed1(Gf()), inv), Table(Unmixed2(Gf()), inv),
           Table(Unmixed3(Gf()), inv),
           Table(Alone0(Gf()), inv), Table(Alone1(Gf()), inv), Table(Alone2(Gf()), inv), Table(Alone3(Gf()), inv))
  }

  lemma TableSplits(column: bv8 -> Col<bv8>, s: bv8 -> bv8, b: bv8)
    ensures Entry(Words(), Table(column, s), s, column, b)
  {
    SplitWord(column(s(b)));
  }

  lemma TableEntries(column: bv8 -> Col<bv8>, s: bv8 -> bv8)
    ensures Entries(Words(), Table(column, s), s, column)
  {
    forall b ensures Entry(Words(), Table(column, s), s, column, b) {
      TableSplits(column, s, b);
    }
  }

  predicate Restores(s: bv8 -> bv8, inv: bv8 -> bv8, b: bv8) {
    inv(s(b)) == b
  }

  ghost predicate Inverts(s: bv8 -> bv8, inv: bv8 -> bv8) {
    forall b :: Restores(s, inv, b)
  }

  lemma KernelBox(s: bv8 -> bv8, inv: bv8 -> bv8)
    requires Inverts(s, inv)
    ensures LawfulBox(Box(Gf(), s, inv))
  {
    var box := Box(Gf(), s, inv);
    GfLawful();
    forall a, k ensures Cancels(box.g, a, k) {
      GfCancels(a, k);
    }
    forall a ensures Undone(box, a) {
      assert Restores(s, inv, a);
    }
  }

  lemma KernelFt(tb: Tables<bv8, bv32>, s: bv8 -> bv8, inv: bv8 -> bv8)
    requires tb == Kernel(s, inv)
    ensures AllFt(tb)
  {
    TableEntries(Mixed0(Gf()), s);
    TableEntries(Mixed1(Gf()), s);
    TableEntries(Mixed2(Gf()), s);
    TableEntries(Mixed3(Gf()), s);
    FtFrom(tb);
  }

  lemma KernelFl(tb: Tables<bv8, bv32>, s: bv8 -> bv8, inv: bv8 -> bv8)
    requires tb == Kernel(s, inv)
    ensures AllFl(tb)
  {
    TableEntries(Alone0(Gf()), s);
    TableEntries(Alone1(Gf()), s);
    TableEntries(Alone2(Gf()), s);
    TableEntries(Alone3(Gf()), s);
    FlFrom(tb);
  }

  lemma KernelIt(tb: Tables<bv8, bv32>, s: bv8 -> bv8, inv: bv8 -> bv8)
    requires tb == Kernel(s, inv)
    ensures AllIt(tb)
  {
    TableEntries(Unmixed0(Gf()), inv);
    TableEntries(Unmixed1(Gf()), inv);
    TableEntries(Unmixed2(Gf()), inv);
    TableEntries(Unmixed3(Gf()), inv);
    ItFrom(tb);
  }

  lemma KernelIl(tb: Tables<bv8, bv32>, s: bv8 -> bv8, inv: bv8 -> bv8)
    requires tb == Kernel(s, inv)
    ensures AllIl(tb)
  {
    TableEntries(Alone0(Gf()), inv);
    TableEntries(Alone1(Gf()), inv);
    TableEntries(Alone2(Gf()), inv);
    TableEntries(Alone3(Gf()), inv);
    IlFrom(tb);
  }

  lemma KernelRegisters(tb: Tables<bv8, bv32>, s: bv8 -> bv8, inv: bv8 -> bv8)
    requires tb == Kernel(s, inv)
    ensures HoldColumns(tb.rs) && tb.box.g == tb.rs.g && tb.rs == Words()
  {
    WordsHoldColumns();
  }

  lemma KernelSubstitutes(tb: Tables<bv8, bv32>, s: bv8 -> bv8, inv: bv8 -> bv8)
    requires tb == Kernel(s, inv) && Inverts(s, inv)
    ensures LawfulBox(tb.box)
  {
    KernelBox(s, inv);
  }

  /** The kernel's tables fit the cipher, for any substitution with an inverse. */
  lemma KernelFits(tb: Tables<bv8, bv32>, s: bv8 -> bv8, inv: bv8 -> bv8)
    requires tb == Kernel(s, inv) && Inverts(s, inv)
    ensures Fitting(tb)
  {
    KernelRegisters(tb, s, inv);
    KernelSubstitutes(tb, s, inv);
    KernelFt(tb, s, inv);
    KernelFl(tb, s, inv);
    KernelIt(tb, s, inv);
    KernelIl(tb, s, inv);
  }

  lemma SameSplit(x: bv32, y: bv32)
    requires Split(x) == Split(y)
    ensures x == y
  {
    WordSplit(x);
    WordSplit(y);
  }

  /** A block of words is its sixteen bytes. */
  lemma ColsAreBytes(rs: Registers<bv8, bv32>, a: seq<bv32>, b: seq<bv32>)
    requires rs == Words() && |a| == 4 && |b| == 4 && ColsOf(rs, a) == ColsOf(rs, b)
    ensures a == b
  {
    SameSplit(a[0], b[0]);
    SameSplit(a[1], b[1]);
    SameSplit(a[2], b[2]);
    SameSplit(a[3], b[3]);
  }

  lemma KernelUndoesOn(tb: Tables<bv8, bv32>, enc: seq<bv32>, dec: seq<bv32>, src: seq<bv32>, c: seq<bv32>,
      dst: seq<bv32>, rounds: nat)
    requires Fitting(tb) && tb.rs == Words() && DecWords(tb.rs, enc, dec, 4 * rounds)
    requires ForwardDone(tb, enc, src, rounds, c) && BackDone(tb, dec, c, rounds, dst)
    ensures dst == src
  {
    DoneUndoes(tb, enc, dec, src, c, dst, rounds);
    ColsAreBytes(tb.rs, dst, src);
  }

  /** For every substitution with an inverse, every key of the three lengths and every block,
      what aes_decrypt makes of the result of aes_encrypt is the block. */
  lemma KernelUndoes(s: bv8 -> bv8, inv: bv8 -> bv8, ctx: Context<bv8, bv32>, src: seq<bv32>, c: seq<bv32>,
      dst: seq<bv32>)
    requires Inverts(s, inv) && ctx.tb == Kernel(s, inv) && ctx.Keyed()
    requires ForwardDone(ctx.tb, ctx.keyEnc[..], src, Rounds(ctx.keyLength), c)
    requires BackDone(ctx.tb, ctx.keyDec[..], c, Rounds(ctx.keyLength), dst)
    ensures dst == src
  {
    KernelFits(ctx.tb, s, inv);
    KernelRegisters(ctx.tb, s, inv);
    KernelUndoesOn(ctx.tb, ctx.keyEnc[..], ctx.keyDec[..], src, c, dst, Rounds(ctx.keyLength));
  }

  // ----- Round constants -----

  const RCO_TAB: seq<bv32> := [1, 2, 4, 8, 16, 32, 64, 128, 27, 54]

  /** The power `i` of x. */
  function Power(i: nat): bv8 {
    if i == 0 then 1 else Xtime(Power(i - 1))
  }

  lemma Powers()
    ensures Power(0) == 1 && Power(1) == 2 && Power(2) == 4 && Power(3) == 8 && Power(4) == 16
    ensures Power(5) == 32 && Power(6) == 64 && Power(7) == 128 && Power(8) == 27 && Power(9) == 54
  {
  }

  /** The round constants are the powers of x, section 5.2 of FIPS 197. */
  lemma RcoIsPower(i: nat)
    requires i < 10
    ensures RCO_TAB[i] == Word(Col(Power(i), 0, 0, 0))
  {
    Powers();
    SplitWord(Col(Power(i), 0, 0, 0));
  }
}
