/** AES on registers: sums and rotations of whole columns, as the kernel computes the rounds
    and the mixing of keys, over any registers that hold columns. */
module AesRegisters {
  import opened AesAlgebra
  import opened AesRounds

  // ----- Sums -----

  lemma Associates<T(!new)>(g: Field<T>, a: T, b: T, c: T)
    requires Lawful(g)
    ensures g.add(g.add(a, b), c) == g.add(a, g.add(b, c))
  {
    assert Exchanges(g, a, b, g.zero, c);
    assert Neutral(g, a) && Neutral(g, c);
    assert Commutes(g, g.zero, c);
  }

  lemma Reverses<T(!new)>(g: Field<T>, a: T, b: T, c: T)
    requires Lawful(g)
    ensures g.add(g.add(a, b), c) == g.add(g.add(c, b), a)
  {
    assert Commutes(g, g.add(a, b), c) && Commutes(g, a, b);
    Associates(g, c, b, a);
  }

  lemma Rotates3<T(!new)>(g: Field<T>, a: T, b: T, c: T)
    requires Lawful(g)
    ensures g.add(a, g.add(b, c)) == g.add(g.add(b, a), c)
  {
    Associates(g, a, b, c);
    assert Commutes(g, a, b);
  }

  // ----- Registers -----

  /** What a register can do, and the column it holds. */
  datatype Registers<!T, !W> = Registers(
    g: Field<T>,
    xor: (W, W) -> W,
    star: W -> W,
    ror8: W -> W,
    ror16: W -> W,
    ror24: W -> W,
    split: W -> Col<T>)

  predicate XorSplits<T(==), W>(rs: Registers<T, W>, x: W, y: W) {
    rs.split(rs.xor(x, y)) == AddCol(rs.g, rs.split(x), rs.split(y))
  }

  predicate StarSplits<T(==), W>(rs: Registers<T, W>, x: W) {
    var c := rs.split(x);
    rs.split(rs.star(x)) == Col(rs.g.x(c.b0), rs.g.x(c.b1), rs.g.x(c.b2), rs.g.x(c.b3))
  }

  predicate RorSplits<T(==), W>(rs: Registers<T, W>, x: W) {
    var c := rs.split(x);
    && rs.split(rs.ror8(x)) == Col(c.b1, c.b2, c.b3, c.b0)
    && rs.split(rs.ror16(x)) == Col(c.b2, c.b3, c.b0, c.b1)
    && rs.split(rs.ror24(x)) == Col(c.b3, c.b0, c.b1, c.b2)
  }

  predicate XorCommutes<T, W(==)>(rs: Registers<T, W>, x: W, y: W) {
    rs.xor(x, y) == rs.xor(y, x)
  }

  ghost predicate HoldColumns<T(!new), W(!new)>(rs: Registers<T, W>) {
    && Lawful(rs.g)
    && (forall x, y :: XorCommutes(rs, x, y)) && (forall x, y :: XorSplits(rs, x, y))
    && (forall x :: StarSplits(rs, x)) && (forall x :: RorSplits(rs, x))
  }

  // ----- imix_col -----

  function ImixSum<T, W>(rs: Registers<T, W>, u: W, v: W, w: W, t: W): W {
    rs.xor(rs.xor(rs.xor(rs.xor(rs.xor(u, v), w), rs.ror8(rs.xor(u, t))), rs.ror16(rs.xor(v, t))), rs.ror24(t))
  }

  /** imix_col */
  function ImixCol<T, W>(rs: Registers<T, W>, x: W): W {
    var u := rs.star(x);
    var v := rs.star(u);
    var w := rs.star(v);
    ImixSum(rs, u, v, w, rs.xor(w, x))
  }

  /** A byte of that sum. */
  function ImixByte<T>(g: Field<T>, u0: T, v0: T, w0: T, u1: T, t1: T, v2: T, t2: T, t3: T): T {
    g.add(g.add(g.add(g.add(g.add(u0, v0), w0), g.add(u1, t1)), g.add(v2, t2)), t3)
  }

  lemma ImixRow<T(!new)>(g: Field<T>, c0: T, c1: T, c2: T, c3: T)
    requires Lawful(g)
    ensures ImixByte(g, g.x(c0), Mul4(g, c0), Mul8(g, c0), g.x(c1), g.add(Mul8(g, c1), c1), Mul4(g, c2),
                     g.add(Mul8(g, c2), c2), g.add(Mul8(g, c3), c3))
         == InvRow(g, c0, c1, c2, c3)
  {
    Reverses(g, g.x(c0), Mul4(g, c0), Mul8(g, c0));
    Rotates3(g, g.x(c1), Mul8(g, c1), c1);
    Rotates3(g, Mul4(g, c2), Mul8(g, c2), c2);
    Associates(g, g.add(MulE(g, c0), MulB(g, c1)), MulD(g, c2), Mul9(g, c3));
  }

  /** The sum of imix_col on the columns its words hold. */
  lemma ImixSumSplits<T(!new), W(!new)>(rs: Registers<T, W>, u: W, v: W, w: W, t: W)
    requires HoldColumns(rs)
    ensures var U, V, X, Y := rs.split(u), rs.split(v), rs.split(w), rs.split(t);
            rs.split(ImixSum(rs, u, v, w, t))
            == Col(ImixByte(rs.g, U.b0, V.b0, X.b0, U.b1, Y.b1, V.b2, Y.b2, Y.b3),
                   ImixByte(rs.g, U.b1, V.b1, X.b1, U.b2, Y.b2, V.b3, Y.b3, Y.b0),
                   ImixByte(rs.g, U.b2, V.b2, X.b2, U.b3, Y.b3, V.b0, Y.b0, Y.b1),
                   ImixByte(rs.g, U.b3, V.b3, X.b3, U.b0, Y.b0, V.b1, Y.b1, Y.b2))
  {
    var a, b := rs.xor(u, t), rs.xor(v, t);
    assert XorSplits(rs, u, t) && XorSplits(rs, v, t);
    assert RorSplits(rs, a) && RorSplits(rs, b) && RorSplits(rs, t);
    var p := rs.xor(u, v);
    var q := rs.xor(p, w);
    var r := rs.xor(q, rs.ror8(a));
    var s := rs.xor(r, rs.ror16(b));
    assert XorSplits(rs, u, v) && XorSplits(rs, p, w);
    assert XorSplits(rs, q, rs.ror8(a)) && XorSplits(rs, r, rs.ror16(b)) && XorSplits(rs, s, rs.ror24(t));
  }

  /** imix_col is InvMixColumns. */
  lemma ImixIsInvMix<T(!new), W(!new)>(rs: Registers<T, W>, x: W)
    requires HoldColumns(rs)
    ensures rs.split(ImixCol(rs, x)) == InvMix(rs.g, rs.split(x))
  {
    var u := rs.star(x);
    var v := rs.star(u);
    var w := rs.star(v);
    var t := rs.xor(w, x);
    assert StarSplits(rs, x) && StarSplits(rs, u) && StarSplits(rs, v) && XorSplits(rs, w, x);
    ImixSumSplits(rs, u, v, w, t);
    var c := rs.split(x);
    ImixRow(rs.g, c.b0, c.b1, c.b2, c.b3);
    ImixRow(rs.g, c.b1, c.b2, c.b3, c.b0);
    ImixRow(rs.g, c.b2, c.b3, c.b0, c.b1);
    ImixRow(rs.g, c.b3, c.b0, c.b1, c.b2);
  }

  // ----- Tables -----

  /** The tables of the cipher: each holds, for a byte in one row, what it contributes to its
      column. */
  datatype Tables<!T, !W> = Tables(
    rs: Registers<T, W>,
    box: Box<T>,
    ft0: T -> W, ft1: T -> W, ft2: T -> W, ft3: T -> W,
    fl0: T -> W, fl1: T -> W, fl2: T -> W, fl3: T -> W,
    it0: T -> W, it1: T -> W, it2: T -> W, it3: T -> W,
    il0: T -> W, il1: T -> W, il2: T -> W, il3: T -> W)

  predicate FtSplits<T(==), W>(tb: Tables<T, W>, b: T) {
    var g, s := tb.rs.g, tb.box.s(b);
    var x2, x3 := g.x(s), Mul3(g, s);
    && tb.rs.split(tb.ft0(b)) == Col(x2, s, s, x3) && tb.rs.split(tb.ft1(b)) == Col(x3, x2, s, s)
    && tb.rs.split(tb.ft2(b)) == Col(s, x3, x2, s) && tb.rs.split(tb.ft3(b)) == Col(s, s, x3, x2)
  }

  predicate FlSplits<T(==), W>(tb: Tables<T, W>, b: T) {
    var z, s := tb.rs.g.zero, tb.box.s(b);
    && tb.rs.split(tb.fl0(b)) == Col(s, z, z, z) && tb.rs.split(tb.fl1(b)) == Col(z, s, z, z)
    && tb.rs.split(tb.fl2(b)) == Col(z, z, s, z) && tb.rs.split(tb.fl3(b)) == Col(z, z, z, s)
  }

  predicate ItSplits<T(==), W>(tb: Tables<T, W>, b: T) {
    var g, s := tb.rs.g, tb.box.inv(b);
    var xe, xb, xd, x9 := MulE(g, s), MulB(g, s), MulD(g, s), Mul9(g, s);
    && tb.rs.split(tb.it0(b)) == Col(xe, x9, xd, xb) && tb.rs.split(tb.it1(b)) == Col(xb, xe, x9, xd)
    && tb.rs.split(tb.it2(b)) == Col(xd, xb, xe, x9) && tb.rs.split(tb.it3(b)) == Col(x9, xd, xb, xe)
  }

  predicate IlSplits<T(==), W>(tb: Tables<T, W>, b: T) {
    var z, s := tb.rs.g.zero, tb.box.inv(b);
    && tb.rs.split(tb.il0(b)) == Col(s, z, z, z) && tb.rs.split(tb.il1(b)) == Col(z, s, z, z)
    && tb.rs.split(tb.il2(b)) == Col(z, z, s, z) && tb.rs.split(tb.il3(b)) == Col(z, z, z, s)
  }

  ghost predicate AllFt<T(!new), W>(tb: Tables<T, W>) {
    forall b :: FtSplits(tb, b)
  }

  ghost predicate AllFl<T(!new), W>(tb: Tables<T, W>) {
    forall b :: FlSplits(tb, b)
  }

  ghost predicate AllIt<T(!new), W>(tb: Tables<T, W>) {
    forall b :: ItSplits(tb, b)
  }

  ghost predicate AllIl<T(!new), W>(tb: Tables<T, W>) {
    forall b :: IlSplits(tb, b)
  }

  /** Table `t` holds the columns of the bytes that `s` makes. */
  predicate Entry<T(==), W>(rs: Registers<T, W>, t: T -> W, s: T -> T, column: T -> Col<T>, b: T) {
    rs.split(t(b)) == column(s(b))
  }

  ghost predicate Entries<T(!new), W>(rs: Registers<T, W>, t: T -> W, s: T -> T, column: T -> Col<T>) {
    forall b :: Entry(rs, t, s, column, b)
  }

  // The columns of the tables: the byte in each row, mixed, alone, and mixed back.

  function Mixed0<T>(g: Field<T>): T -> Col<T> { v => Col(g.x(v), v, v, Mul3(g, v)) }
  function Mixed1<T>(g: Field<T>): T -> Col<T> { v => Col(Mul3(g, v), g.x(v), v, v) }
  function Mixed2<T>(g: Field<T>): T -> Col<T> { v => Col(v, Mul3(g, v), g.x(v), v) }
  function Mixed3<T>(g: Field<T>): T -> Col<T> { v => Col(v, v, Mul3(g, v), g.x(v)) }

  function Alone0<T>(g: Field<T>): T -> Col<T> { v => Col(v, g.zero, g.zero, g.zero) }
  function Alone1<T>(g: Field<T>): T -> Col<T> { v => Col(g.zero, v, g.zero, g.zero) }
  function Alone2<T>(g: Field<T>): T -> Col<T> { v => Col(g.zero, g.zero, v, g.zero) }
  function Alone3<T>(g: Field<T>): T -> Col<T> { v => Col(g.zero, g.zero, g.zero, v) }

  function Unmixed0<T>(g: Field<T>): T -> Col<T> { v => Col(MulE(g, v), Mul9(g, v), MulD(g, v), MulB(g, v)) }
  function Unmixed1<T>(g: Field<T>): T -> Col<T> { v => Col(MulB(g, v), MulE(g, v), Mul9(g, v), MulD(g, v)) }
  function Unmixed2<T>(g: Field<T>): T -> Col<T> { v => Col(MulD(g, v), MulB(g, v), MulE(g, v), Mul9(g, v)) }
  function Unmixed3<T>(g: Field<T>): T -> Col<T> { v => Col(Mul9(g, v), MulD(g, v), MulB(g, v), MulE(g, v)) }

  lemma FtFrom<T(!new), W>(tb: Tables<T, W>)
    requires Entries(tb.rs, tb.ft0, tb.box.s, Mixed0(tb.rs.g)) && Entries(tb.rs, tb.ft1, tb.box.s, Mixed1(tb.rs.g))
    requires Entries(tb.rs, tb.ft2, tb.box.s, Mixed2(tb.rs.g)) && Entries(tb.rs, tb.ft3, tb.box.s, Mixed3(tb.rs.g))
    ensures AllFt(tb)
  {
    forall b ensures FtSplits(tb, b) {
      assert Entry(tb.rs, tb.ft0, tb.box.s, Mixed0(tb.rs.g), b) && Entry(tb.rs, tb.ft1, tb.box.s, Mixed1(tb.rs.g), b);
      assert Entry(tb.rs, tb.ft2, tb.box.s, Mixed2(tb.rs.g), b) && Entry(tb.rs, tb.ft3, tb.box.s, Mixed3(tb.rs.g), b);
    }
  }

  lemma FlFrom<T(!new), W>(tb: Tables<T, W>)
    requires Entries(tb.rs, tb.fl0, tb.box.s, Alone0(tb.rs.g)) && Entries(tb.rs, tb.fl1, tb.box.s, Alone1(tb.rs.g))
    requires Entries(tb.rs, tb.fl2, tb.box.s, Alone2(tb.rs.g)) && Entries(tb.rs, tb.fl3, tb.box.s, Alone3(tb.rs.g))
    ensures AllFl(tb)
  {
    forall b ensures FlSplits(tb, b) {
      assert Entry(tb.rs, tb.fl0, tb.box.s, Alone0(tb.rs.g), b) && Entry(tb.rs, tb.fl1, tb.box.s, Alone1(tb.rs.g), b);
      assert Entry(tb.rs, tb.fl2, tb.box.s, Alone2(tb.rs.g), b) && Entry(tb.rs, tb.fl3, tb.box.s, Alone3(tb.rs.g), b);
    }
  }

  lemma ItFrom<T(!new), W>(tb: Tables<T, W>)
    requires Entries(tb.rs, tb.it0, tb.box.inv, Unmixed0(tb.rs.g))
             && Entries(tb.rs, tb.it1, tb.box.inv, Unmixed1(tb.rs.g))
    requires Entries(tb.rs, tb.it2, tb.box.inv, Unmixed2(tb.rs.g))
             && Entries(tb.rs, tb.it3, tb.box.inv, Unmixed3(tb.rs.g))
    ensures AllIt(tb)
  {
    forall b ensures ItSplits(tb, b) {
      assert Entry(tb.rs, tb.it0, tb.box.inv, Unmixed0(tb.rs.g), b)
             && Entry(tb.rs, tb.it1, tb.box.inv, Unmixed1(tb.rs.g), b);
      assert Entry(tb.rs, tb.it2, tb.box.inv, Unmixed2(tb.rs.g), b)
             && Entry(tb.rs, tb.it3, tb.box.inv, Unmixed3(tb.rs.g), b);
    }
  }

  lemma IlFrom<T(!new), W>(tb: Tables<T, W>)
    requires Entries(tb.rs, tb.il0, tb.box.inv, Alone0(tb.rs.g)) && Entries(tb.rs, tb.il1, tb.box.inv, Alone1(tb.rs.g))
    requires Entries(tb.rs, tb.il2, tb.box.inv, Alone2(tb.rs.g)) && Entries(tb.rs, tb.il3, tb.box.inv, Alone3(tb.rs.g))
    ensures AllIl(tb)
  {
    forall b ensures IlSplits(tb, b) {
      assert Entry(tb.rs, tb.il0, tb.box.inv, Alone0(tb.rs.g), b)
             && Entry(tb.rs, tb.il1, tb.box.inv, Alone1(tb.rs.g), b);
      assert Entry(tb.rs, tb.il2, tb.box.inv, Alone2(tb.rs.g), b)
             && Entry(tb.rs, tb.il3, tb.box.inv, Alone3(tb.rs.g), b);
    }
  }

  ghost predicate Fitting<T(!new), W(!new)>(tb: Tables<T, W>) {
    && HoldColumns(tb.rs) && LawfulBox(tb.box) && tb.box.g == tb.rs.g
    && AllFt(tb) && AllFl(tb) && AllIt(tb) && AllIl(tb)
  }

  // ----- The words of a round -----

  function Sum5<T, W>(rs: Registers<T, W>, a: W, b: W, c: W, d: W, k: W): W {
    rs.xor(rs.xor(rs.xor(rs.xor(a, b), c), d), k)
  }

  lemma Sum5Splits<T(!new), W(!new)>(rs: Registers<T, W>, a: W, b: W, c: W, d: W, k: W)
    requires HoldColumns(rs)
    ensures rs.split(Sum5(rs, a, b, c, d, k))
         == AddCol(rs.g, AddCol(rs.g, AddCol(rs.g, AddCol(rs.g, rs.split(a), rs.split(b)), rs.split(c)), rs.split(d)),
                   rs.split(k))
  {
    var p := rs.xor(a, b);
    var q := rs.xor(p, c);
    var r := rs.xor(q, d);
    assert XorSplits(rs, a, b) && XorSplits(rs, p, c) && XorSplits(rs, q, d) && XorSplits(rs, r, k);
  }

  lemma Chain4<T(!new)>(g: Field<T>, a: T, b: T, c: T, d: T)
    requires Lawful(g)
    ensures g.add(g.add(g.add(a, b), c), d) == Sum4(g, a, b, c, d)
  {
    Associates(g, g.add(a, b), c, d);
  }

  /** f_rn */
  function ForwardWord<T, W>(tb: Tables<T, W>, a: T, b: T, c: T, d: T, k: W): W {
    Sum5(tb.rs, tb.ft0(a), tb.ft1(b), tb.ft2(c), tb.ft3(d), k)
  }

  lemma ForwardSplits<T(!new), W(!new)>(tb: Tables<T, W>, a: T, b: T, c: T, d: T, k: W)
    requires Fitting(tb)
    ensures tb.rs.split(ForwardWord(tb, a, b, c, d, k))
            == AddCol(tb.rs.g, Mix(tb.rs.g, SubCol(tb.box, a, b, c, d)), tb.rs.split(k))
  {
    var g := tb.rs.g;
    var p, q, r, s := tb.box.s(a), tb.box.s(b), tb.box.s(c), tb.box.s(d);
    assert FtSplits(tb, a) && FtSplits(tb, b) && FtSplits(tb, c) && FtSplits(tb, d);
    Sum5Splits(tb.rs, tb.ft0(a), tb.ft1(b), tb.ft2(c), tb.ft3(d), k);
    Chain4(g, g.x(p), Mul3(g, q), r, s);
    Chain4(g, p, g.x(q), Mul3(g, r), s);
    Chain4(g, p, q, g.x(r), Mul3(g, s));
    Chain4(g, Mul3(g, p), q, r, g.x(s));
    MixRowsAre(g, p, q, r, s);
  }

  lemma OnlyOne<T(!new)>(g: Field<T>, a: T)
    requires Lawful(g)
    ensures g.add(g.add(g.add(a, g.zero), g.zero), g.zero) == a
    ensures g.add(g.add(g.add(g.zero, a), g.zero), g.zero) == a
    ensures g.add(g.add(g.add(g.zero, g.zero), a), g.zero) == a
    ensures g.add(g.add(g.add(g.zero, g.zero), g.zero), a) == a
  {
    assert Neutral(g, a) && Neutral(g, g.zero);
    assert Commutes(g, g.zero, a);
  }

  /** f_rl */
  function ForwardLast<T, W>(tb: Tables<T, W>, a: T, b: T, c: T, d: T, k: W): W {
    Sum5(tb.rs, tb.fl0(a), tb.fl1(b), tb.fl2(c), tb.fl3(d), k)
  }

  lemma ForwardLastSplits<T(!new), W(!new)>(tb: Tables<T, W>, a: T, b: T, c: T, d: T, k: W)
    requires Fitting(tb)
    ensures tb.rs.split(ForwardLast(tb, a, b, c, d, k)) == AddCol(tb.rs.g, SubCol(tb.box, a, b, c, d), tb.rs.split(k))
  {
    assert FlSplits(tb, a) && FlSplits(tb, b) && FlSplits(tb, c) && FlSplits(tb, d);
    Sum5Splits(tb.rs, tb.fl0(a), tb.fl1(b), tb.fl2(c), tb.fl3(d), k);
    OnlyOne(tb.rs.g, tb.box.s(a));
    OnlyOne(tb.rs.g, tb.box.s(b));
    OnlyOne(tb.rs.g, tb.box.s(c));
    OnlyOne(tb.rs.g, tb.box.s(d));
  }

  /** i_rn */
  function BackWord<T, W>(tb: Tables<T, W>, a: T, b: T, c: T, d: T, k: W): W {
    Sum5(tb.rs, tb.it0(a), tb.it1(b), tb.it2(c), tb.it3(d), k)
  }

  /** The rows of a column put through InvMixColumns, each with its terms in the order of the
      bytes. */
  lemma InvRowsAre<T(!new)>(g: Field<T>, a: T, b: T, c: T, d: T)
    requires Lawful(g)
    ensures InvRow(g, b, c, d, a) == Sum4(g, Mul9(g, a), MulE(g, b), MulB(g, c), MulD(g, d))
    ensures InvRow(g, c, d, a, b) == Sum4(g, MulD(g, a), Mul9(g, b), MulE(g, c), MulB(g, d))
    ensures InvRow(g, d, a, b, c) == Sum4(g, MulB(g, a), MulD(g, b), Mul9(g, c), MulE(g, d))
  {
    SumRotates(g, Mul9(g, a), MulE(g, b), MulB(g, c), MulD(g, d));
    SumRotates(g, MulD(g, a), Mul9(g, b), MulE(g, c), MulB(g, d));
    SumRotates(g, Mul9(g, b), MulE(g, c), MulB(g, d), MulD(g, a));
    SumRotates(g, MulE(g, d), MulB(g, a), MulD(g, b), Mul9(g, c));
  }

  lemma BackSplits<T(!new), W(!new)>(tb: Tables<T, W>, a: T, b: T, c: T, d: T, k: W)
    requires Fitting(tb)
    ensures tb.rs.split(BackWord(tb, a, b, c, d, k))
            == AddCol(tb.rs.g, InvMix(tb.rs.g, InvCol(tb.box, a, b, c, d)), tb.rs.split(k))
  {
    var g := tb.rs.g;
    var p, q, r, s := tb.box.inv(a), tb.box.inv(b), tb.box.inv(c), tb.box.inv(d);
    assert ItSplits(tb, a) && ItSplits(tb, b) && ItSplits(tb, c) && ItSplits(tb, d);
    Sum5Splits(tb.rs, tb.it0(a), tb.it1(b), tb.it2(c), tb.it3(d), k);
    Chain4(g, MulE(g, p), MulB(g, q), MulD(g, r), Mul9(g, s));
    Chain4(g, Mul9(g, p), MulE(g, q), MulB(g, r), MulD(g, s));
    Chain4(g, MulD(g, p), Mul9(g, q), MulE(g, r), MulB(g, s));
    Chain4(g, MulB(g, p), MulD(g, q), Mul9(g, r), MulE(g, s));
    InvRowsAre(g, p, q, r, s);
  }

  /** i_rl */
  function BackLast<T, W>(tb: Tables<T, W>, a: T, b: T, c: T, d: T, k: W): W {
    Sum5(tb.rs, tb.il0(a), tb.il1(b), tb.il2(c), tb.il3(d), k)
  }

  lemma BackLastSplits<T(!new), W(!new)>(tb: Tables<T, W>, a: T, b: T, c: T, d: T, k: W)
    requires Fitting(tb)
    ensures tb.rs.split(BackLast(tb, a, b, c, d, k)) == AddCol(tb.rs.g, InvCol(tb.box, a, b, c, d), tb.rs.split(k))
  {
    assert IlSplits(tb, a) && IlSplits(tb, b) && IlSplits(tb, c) && IlSplits(tb, d);
    Sum5Splits(tb.rs, tb.il0(a), tb.il1(b), tb.il2(c), tb.il3(d), k);
    OnlyOne(tb.rs.g, tb.box.inv(a));
    OnlyOne(tb.rs.g, tb.box.inv(b));
    OnlyOne(tb.rs.g, tb.box.inv(c));
    OnlyOne(tb.rs.g, tb.box.inv(d));
  }

  /** ls_box */
  function LsBox<T, W>(tb: Tables<T, W>, x: W): W {
    var c := tb.rs.split(x);
    tb.rs.xor(tb.rs.xor(tb.rs.xor(tb.fl0(c.b0), tb.fl1(c.b1)), tb.fl2(c.b2)), tb.fl3(c.b3))
  }

  /** It is SubWord, section 5.2 of FIPS 197. */
  lemma LsBoxSplits<T(!new), W(!new)>(tb: Tables<T, W>, x: W)
    requires Fitting(tb)
    ensures var c := tb.rs.split(x); tb.rs.split(LsBox(tb, x)) == SubCol(tb.box, c.b0, c.b1, c.b2, c.b3)
  {
    var c := tb.rs.split(x);
    assert FlSplits(tb, c.b0) && FlSplits(tb, c.b1) && FlSplits(tb, c.b2) && FlSplits(tb, c.b3);
    var p := tb.rs.xor(tb.fl0(c.b0), tb.fl1(c.b1));
    var q := tb.rs.xor(p, tb.fl2(c.b2));
    assert XorSplits(tb.rs, tb.fl0(c.b0), tb.fl1(c.b1)) && XorSplits(tb.rs, p, tb.fl2(c.b2))
           && XorSplits(tb.rs, q, tb.fl3(c.b3));
    OnlyOne(tb.rs.g, tb.box.s(c.b0));
    OnlyOne(tb.rs.g, tb.box.s(c.b1));
    OnlyOne(tb.rs.g, tb.box.s(c.b2));
    OnlyOne(tb.rs.g, tb.box.s(c.b3));
  }
}
