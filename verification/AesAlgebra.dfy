/** The linear algebra behind MixColumns, over any field that adds like bytes do. */
module AesAlgebra {
  /** Addition and multiplication by x. */
  datatype Field<!T> = Field(add: (T, T) -> T, zero: T, x: T -> T)

  predicate Exchanges<T(==)>(g: Field<T>, a: T, b: T, c: T, d: T) {
    g.add(g.add(a, b), g.add(c, d)) == g.add(g.add(a, c), g.add(b, d))
  }

  predicate Commutes<T(==)>(g: Field<T>, a: T, b: T) {
    g.add(a, b) == g.add(b, a)
  }

  predicate Additive<T(==)>(g: Field<T>, a: T, b: T) {
    g.x(g.add(a, b)) == g.add(g.x(a), g.x(b))
  }

  predicate Neutral<T(==)>(g: Field<T>, a: T) {
    g.add(a, g.zero) == a
  }

  // ----- Multiples -----

  function Mul3<T>(g: Field<T>, b: T): T { g.add(g.x(b), b) }
  function Mul4<T>(g: Field<T>, b: T): T { g.x(g.x(b)) }
  function Mul8<T>(g: Field<T>, b: T): T { g.x(Mul4(g, b)) }
  function Mul9<T>(g: Field<T>, b: T): T { g.add(Mul8(g, b), b) }
  function MulB<T>(g: Field<T>, b: T): T { g.add(g.add(Mul8(g, b), g.x(b)), b) }
  function MulD<T>(g: Field<T>, b: T): T { g.add(g.add(Mul8(g, b), Mul4(g, b)), b) }
  function MulE<T>(g: Field<T>, b: T): T { g.add(g.add(Mul8(g, b), Mul4(g, b)), g.x(b)) }

  function Sum4<T>(g: Field<T>, a: T, b: T, c: T, d: T): T { g.add(g.add(a, b), g.add(c, d)) }

  /** The two MixColumns polynomials are inverse to each other, coefficient by coefficient. */
  predicate Inverse0<T(==)>(g: Field<T>, b: T) {
    Sum4(g, MulE(g, g.x(b)), MulB(g, b), MulD(g, b), Mul9(g, Mul3(g, b))) == b
  }

  predicate Inverse1<T(==)>(g: Field<T>, b: T) {
    Sum4(g, MulE(g, Mul3(g, b)), MulB(g, g.x(b)), MulD(g, b), Mul9(g, b)) == g.zero
  }

  predicate Inverse2<T(==)>(g: Field<T>, b: T) {
    Sum4(g, MulE(g, b), MulB(g, Mul3(g, b)), MulD(g, g.x(b)), Mul9(g, b)) == g.zero
  }

  predicate Inverse3<T(==)>(g: Field<T>, b: T) {
    Sum4(g, MulE(g, b), MulB(g, b), MulD(g, Mul3(g, b)), Mul9(g, g.x(b))) == g.zero
  }

  ghost predicate Lawful<T(!new)>(g: Field<T>) {
    && (forall a, b, c, d :: Exchanges(g, a, b, c, d))
    && (forall a, b :: Commutes(g, a, b))
    && (forall a, b :: Additive(g, a, b))
    && (forall a :: Neutral(g, a))
    && (forall b :: Inverse0(g, b)) && (forall b :: Inverse1(g, b)) && (forall b :: Inverse2(g, b))
       && (forall b :: Inverse3(g, b))
  }

  lemma Mul4Adds<T(!new)>(g: Field<T>, a: T, b: T)
    requires Lawful(g)
    ensures Mul4(g, g.add(a, b)) == g.add(Mul4(g, a), Mul4(g, b))
  {
    assert Additive(g, a, b);
    assert Additive(g, g.x(a), g.x(b));
  }

  lemma Mul8Adds<T(!new)>(g: Field<T>, a: T, b: T)
    requires Lawful(g)
    ensures Mul8(g, g.add(a, b)) == g.add(Mul8(g, a), Mul8(g, b))
  {
    Mul4Adds(g, a, b);
    assert Additive(g, Mul4(g, a), Mul4(g, b));
  }

  lemma Mul9Adds<T(!new)>(g: Field<T>, a: T, b: T)
    requires Lawful(g)
    ensures Mul9(g, g.add(a, b)) == g.add(Mul9(g, a), Mul9(g, b))
  {
    Mul8Adds(g, a, b);
    assert Exchanges(g, Mul8(g, a), Mul8(g, b), a, b);
  }

  lemma MulBAdds<T(!new)>(g: Field<T>, a: T, b: T)
    requires Lawful(g)
    ensures MulB(g, g.add(a, b)) == g.add(MulB(g, a), MulB(g, b))
  {
    Mul8Adds(g, a, b);
    assert Additive(g, a, b);
    assert Exchanges(g, Mul8(g, a), Mul8(g, b), g.x(a), g.x(b));
    assert Exchanges(g, g.add(Mul8(g, a), g.x(a)), g.add(Mul8(g, b), g.x(b)), a, b);
  }

  lemma Mul12Adds<T(!new)>(g: Field<T>, a: T, b: T)
    requires Lawful(g)
    ensures g.add(Mul8(g, g.add(a, b)), Mul4(g, g.add(a, b)))
         == g.add(g.add(Mul8(g, a), Mul4(g, a)), g.add(Mul8(g, b), Mul4(g, b)))
  {
    Mul8Adds(g, a, b);
    Mul4Adds(g, a, b);
    assert Exchanges(g, Mul8(g, a), Mul8(g, b), Mul4(g, a), Mul4(g, b));
  }

  lemma MulDAdds<T(!new)>(g: Field<T>, a: T, b: T)
    requires Lawful(g)
    ensures MulD(g, g.add(a, b)) == g.add(MulD(g, a), MulD(g, b))
  {
    Mul12Adds(g, a, b);
    assert Exchanges(g, g.add(Mul8(g, a), Mul4(g, a)), g.add(Mul8(g, b), Mul4(g, b)), a, b);
  }

  lemma MulEAdds<T(!new)>(g: Field<T>, a: T, b: T)
    requires Lawful(g)
    ensures MulE(g, g.add(a, b)) == g.add(MulE(g, a), MulE(g, b))
  {
    Mul12Adds(g, a, b);
    assert Additive(g, a, b);
    assert Exchanges(g, g.add(Mul8(g, a), Mul4(g, a)), g.add(Mul8(g, b), Mul4(g, b)), g.x(a), g.x(b));
  }

  lemma SumsExchange<T(!new)>(g: Field<T>, a: T, b: T, c: T, d: T, a': T, b': T, c': T, d': T)
    requires Lawful(g)
    ensures g.add(Sum4(g, a, b, c, d), Sum4(g, a', b', c', d'))
            == Sum4(g, g.add(a, a'), g.add(b, b'), g.add(c, c'), g.add(d, d'))
  {
    assert Exchanges(g, g.add(a, b), g.add(c, d), g.add(a', b'), g.add(c', d'));
    assert Exchanges(g, a, b, a', b');
    assert Exchanges(g, c, d, c', d');
  }

  // ----- Columns -----

  datatype Col<T> = Col(b0: T, b1: T, b2: T, b3: T)

  function AddCol<T>(g: Field<T>, a: Col<T>, b: Col<T>): Col<T> {
    Col(g.add(a.b0, b.b0), g.add(a.b1, b.b1), g.add(a.b2, b.b2), g.add(a.b3, b.b3))
  }

  function MixRow<T>(g: Field<T>, a: T, b: T, c: T, d: T): T {
    Sum4(g, g.x(a), Mul3(g, b), c, d)
  }

  /** MixColumns on one column, section 5.1.3 of FIPS 197. */
  function Mix<T>(g: Field<T>, c: Col<T>): Col<T> {
    Col(MixRow(g, c.b0, c.b1, c.b2, c.b3), MixRow(g, c.b1, c.b2, c.b3, c.b0),
        MixRow(g, c.b2, c.b3, c.b0, c.b1), MixRow(g, c.b3, c.b0, c.b1, c.b2))
  }

  /** One row of InvMixColumns. */
  function InvRow<T>(g: Field<T>, a: T, b: T, c: T, d: T): T {
    Sum4(g, MulE(g, a), MulB(g, b), MulD(g, c), Mul9(g, d))
  }

  /** InvMixColumns on one column, section 5.3.3 of FIPS 197. */
  function InvMix<T>(g: Field<T>, c: Col<T>): Col<T> {
    Col(InvRow(g, c.b0, c.b1, c.b2, c.b3), InvRow(g, c.b1, c.b2, c.b3, c.b0),
        InvRow(g, c.b2, c.b3, c.b0, c.b1), InvRow(g, c.b3, c.b0, c.b1, c.b2))
  }

  lemma InvRowAdds<T(!new)>(g: Field<T>, a: T, b: T, c: T, d: T, a': T, b': T, c': T, d': T)
    requires Lawful(g)
    ensures InvRow(g, g.add(a, a'), g.add(b, b'), g.add(c, c'), g.add(d, d'))
            == g.add(InvRow(g, a, b, c, d), InvRow(g, a', b', c', d'))
  {
    MulEAdds(g, a, a');
    MulBAdds(g, b, b');
    MulDAdds(g, c, c');
    Mul9Adds(g, d, d');
    SumsExchange(g, MulE(g, a), MulB(g, b), MulD(g, c), Mul9(g, d), MulE(g, a'), MulB(g, b'), MulD(g, c'), Mul9(g, d'));
  }

  /** InvMixColumns is linear. */
  lemma InvMixAdds<T(!new)>(g: Field<T>, a: Col<T>, b: Col<T>)
    requires Lawful(g)
    ensures InvMix(g, AddCol(g, a, b)) == AddCol(g, InvMix(g, a), InvMix(g, b))
  {
    InvRowAdds(g, a.b0, a.b1, a.b2, a.b3, b.b0, b.b1, b.b2, b.b3);
    InvRowAdds(g, a.b1, a.b2, a.b3, a.b0, b.b1, b.b2, b.b3, b.b0);
    InvRowAdds(g, a.b2, a.b3, a.b0, a.b1, b.b2, b.b3, b.b0, b.b1);
    InvRowAdds(g, a.b3, a.b0, a.b1, a.b2, b.b3, b.b0, b.b1, b.b2);
  }

  lemma SumRotates<T(!new)>(g: Field<T>, a: T, b: T, c: T, d: T)
    requires Lawful(g)
    ensures Sum4(g, a, b, c, d) == Sum4(g, b, c, d, a)
  {
    assert Commutes(g, a, b);
    assert Exchanges(g, b, a, c, d);
    assert Commutes(g, a, d);
  }

  /** The rows of sums of columns are the columns of sums of rows. */
  lemma SumsTranspose<T(!new)>(g: Field<T>, p: Col<T>, q: Col<T>, r: Col<T>, s: Col<T>)
    requires Lawful(g)
    ensures Sum4(g, Sum4(g, p.b0, q.b0, r.b0, s.b0), Sum4(g, p.b1, q.b1, r.b1, s.b1),
                 Sum4(g, p.b2, q.b2, r.b2, s.b2), Sum4(g, p.b3, q.b3, r.b3, s.b3))
         == Sum4(g, Total(g, p), Total(g, q), Total(g, r), Total(g, s))
  {
    SumsExchange(g, p.b0, q.b0, r.b0, s.b0, p.b1, q.b1, r.b1, s.b1);
    SumsExchange(g, p.b2, q.b2, r.b2, s.b2, p.b3, q.b3, r.b3, s.b3);
    SumsExchange(g, g.add(p.b0, p.b1), g.add(q.b0, q.b1), g.add(r.b0, r.b1), g.add(s.b0, s.b1),
                 g.add(p.b2, p.b3), g.add(q.b2, q.b3), g.add(r.b2, r.b3), g.add(s.b2, s.b3));
  }

  function Total<T>(g: Field<T>, c: Col<T>): T {
    Sum4(g, c.b0, c.b1, c.b2, c.b3)
  }

  lemma MulESum<T(!new)>(g: Field<T>, a: T, b: T, c: T, d: T)
    requires Lawful(g)
    ensures MulE(g, Sum4(g, a, b, c, d)) == Sum4(g, MulE(g, a), MulE(g, b), MulE(g, c), MulE(g, d))
  {
    MulEAdds(g, g.add(a, b), g.add(c, d));
    MulEAdds(g, a, b);
    MulEAdds(g, c, d);
  }

  lemma MulBSum<T(!new)>(g: Field<T>, a: T, b: T, c: T, d: T)
    requires Lawful(g)
    ensures MulB(g, Sum4(g, a, b, c, d)) == Sum4(g, MulB(g, a), MulB(g, b), MulB(g, c), MulB(g, d))
  {
    MulBAdds(g, g.add(a, b), g.add(c, d));
    MulBAdds(g, a, b);
    MulBAdds(g, c, d);
  }

  lemma MulDSum<T(!new)>(g: Field<T>, a: T, b: T, c: T, d: T)
    requires Lawful(g)
    ensures MulD(g, Sum4(g, a, b, c, d)) == Sum4(g, MulD(g, a), MulD(g, b), MulD(g, c), MulD(g, d))
  {
    MulDAdds(g, g.add(a, b), g.add(c, d));
    MulDAdds(g, a, b);
    MulDAdds(g, c, d);
  }

  lemma Mul9Sum<T(!new)>(g: Field<T>, a: T, b: T, c: T, d: T)
    requires Lawful(g)
    ensures Mul9(g, Sum4(g, a, b, c, d)) == Sum4(g, Mul9(g, a), Mul9(g, b), Mul9(g, c), Mul9(g, d))
  {
    Mul9Adds(g, g.add(a, b), g.add(c, d));
    Mul9Adds(g, a, b);
    Mul9Adds(g, c, d);
  }

  /** The rows of a mixed column, each with its terms in the order of the bytes. */
  lemma MixRowsAre<T(!new)>(g: Field<T>, a: T, b: T, c: T, d: T)
    requires Lawful(g)
    ensures MixRow(g, b, c, d, a) == Sum4(g, a, g.x(b), Mul3(g, c), d)
    ensures MixRow(g, c, d, a, b) == Sum4(g, a, b, g.x(c), Mul3(g, d))
    ensures MixRow(g, d, a, b, c) == Sum4(g, Mul3(g, a), b, c, g.x(d))
  {
    SumRotates(g, a, g.x(b), Mul3(g, c), d);
    SumRotates(g, a, b, g.x(c), Mul3(g, d));
    SumRotates(g, b, g.x(c), Mul3(g, d), a);
    SumRotates(g, g.x(d), Mul3(g, a), b, c);
  }

  lemma OnlyFirst<T(!new)>(g: Field<T>, a: T)
    requires Lawful(g)
    ensures Sum4(g, a, g.zero, g.zero, g.zero) == a
  {
    assert Neutral(g, a);
    assert Neutral(g, g.zero);
  }

  lemma RowUnmixes<T(!new)>(g: Field<T>, a: T, b: T, c: T, d: T)
    requires Lawful(g)
    ensures InvRow(g, MixRow(g, a, b, c, d), MixRow(g, b, c, d, a), MixRow(g, c, d, a, b), MixRow(g, d, a, b, c)) == a
  {
    MixRowsAre(g, a, b, c, d);
    MulESum(g, g.x(a), Mul3(g, b), c, d);
    MulBSum(g, a, g.x(b), Mul3(g, c), d);
    MulDSum(g, a, b, g.x(c), Mul3(g, d));
    Mul9Sum(g, Mul3(g, a), b, c, g.x(d));
    SumsTranspose(g, Col(MulE(g, g.x(a)), MulB(g, a), MulD(g, a), Mul9(g, Mul3(g, a))),
                  Col(MulE(g, Mul3(g, b)), MulB(g, g.x(b)), MulD(g, b), Mul9(g, b)),
                  Col(MulE(g, c), MulB(g, Mul3(g, c)), MulD(g, g.x(c)), Mul9(g, c)),
                  Col(MulE(g, d), MulB(g, d), MulD(g, Mul3(g, d)), Mul9(g, g.x(d))));
    assert Inverse0(g, a) && Inverse1(g, b) && Inverse2(g, c) && Inverse3(g, d);
    OnlyFirst(g, a);
  }

  /** InvMixColumns undoes MixColumns. */
  lemma Unmixes<T(!new)>(g: Field<T>, c: Col<T>)
    requires Lawful(g)
    ensures InvMix(g, Mix(g, c)) == c
  {
    RowUnmixes(g, c.b0, c.b1, c.b2, c.b3);
    RowUnmixes(g, c.b1, c.b2, c.b3, c.b0);
    RowUnmixes(g, c.b2, c.b3, c.b0, c.b1);
    RowUnmixes(g, c.b3, c.b0, c.b1, c.b2);
  }
}
