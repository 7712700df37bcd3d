/** The cipher of FIPS 197 and its equivalent inverse, section 5.3.5, over any field that adds
    like bytes do and any substitution that can be undone. */
module AesRounds {
  import opened AesAlgebra

  // ----- Ciphers in rounds -----

  /** Adding a key, the substitution and its inverse, a round, a round of the inverse, and
      what is done to a key of the inverse. */
  datatype Machine<!S> = Machine(add: (S, S) -> S, sub: S -> S, inv: S -> S, round: (S, S) -> S, back: (S, S) -> S,
      key: S -> S)

  predicate AddBack<S(==)>(m: Machine<S>, s: S, k: S) {
    m.add(m.add(s, k), k) == s
  }

  predicate SubBack<S(==)>(m: Machine<S>, s: S) {
    m.inv(m.sub(s)) == s
  }

  /** A round of the inverse takes back a round of the cipher, from one substitution to the
      one before. */
  predicate RoundBack<S(==)>(m: Machine<S>, s: S, k: S) {
    m.back(m.sub(m.round(s, k)), m.key(k)) == m.sub(s)
  }

  ghost predicate Reversible<S(!new)>(m: Machine<S>) {
    (forall s, k :: AddBack(m, s, k)) && (forall s :: SubBack(m, s)) && (forall s, k :: RoundBack(m, s, k))
  }

  /** The state after the first `r` rounds. */
  function Forward<S>(m: Machine<S>, keys: seq<S>, s: S, r: nat): S
    requires r < |keys|
  {
    if r == 0 then m.add(s, keys[0]) else m.round(Forward(m, keys, s, r - 1), keys[r])
  }

  function Backward<S>(m: Machine<S>, keys: seq<S>, s: S, r: nat): S
    requires r < |keys|
  {
    if r == 0 then m.add(s, keys[0]) else m.back(Backward(m, keys, s, r - 1), keys[r])
  }

  /** Cipher, section 5.1: the last round does not mix. */
  function Cipher<S>(m: Machine<S>, keys: seq<S>, s: S): S
    requires |keys| >= 2
  {
    m.add(m.sub(Forward(m, keys, s, |keys| - 2)), keys[|keys| - 1])
  }

  /** EqInvCipher, section 5.3.5. */
  function EqInvCipher<S>(m: Machine<S>, keys: seq<S>, s: S): S
    requires |keys| >= 2
  {
    m.add(m.inv(Backward(m, keys, s, |keys| - 2)), keys[|keys| - 1])
  }

  /** The keys of the equivalent inverse: those of the cipher from the last to the first, and
      all but the first and the last put through InvMixColumns. */
  function InverseKey<S>(m: Machine<S>, keys: seq<S>, r: nat): S
    requires r < |keys|
  {
    var k := keys[|keys| - 1 - r];
    if 0 < r < |keys| - 1 then m.key(k) else k
  }

  ghost predicate InverseKeys<S>(m: Machine<S>, keys: seq<S>, dec: seq<S>) {
    |dec| == |keys| && forall r :: 0 <= r < |keys| ==> dec[r] == InverseKey(m, keys, r)
  }

  /** After `r` rounds back the state is as in the middle of a round of the cipher. */
  lemma {:induction false} BackwardAt<S(!new)>(m: Machine<S>, keys: seq<S>, dec: seq<S>, s: S, r: nat)
    requires Reversible(m) && |keys| >= 2 && InverseKeys(m, keys, dec) && r < |keys| - 1
    ensures Backward(m, dec, Cipher(m, keys, s), r) == m.sub(Forward(m, keys, s, |keys| - 2 - r))
  {
    var last := |keys| - 1;
    if r == 0 {
      assert dec[0] == InverseKey(m, keys, 0);
      assert AddBack(m, m.sub(Forward(m, keys, s, last - 1)), keys[last]);
    } else {
      BackwardAt(m, keys, dec, s, r - 1);
      assert dec[r] == InverseKey(m, keys, r);
      assert RoundBack(m, Forward(m, keys, s, last - 1 - r), keys[last - r]);
    }
  }

  /** The equivalent inverse cipher undoes the cipher, for any number of rounds and any keys. */
  lemma CipherUndone<S(!new)>(m: Machine<S>, keys: seq<S>, dec: seq<S>, s: S)
    requires Reversible(m) && |keys| >= 2 && InverseKeys(m, keys, dec)
    ensures EqInvCipher(m, dec, Cipher(m, keys, s)) == s
  {
    var last := |keys| - 1;
    BackwardAt(m, keys, dec, s, last - 1);
    assert SubBack(m, Forward(m, keys, s, 0));
    assert dec[last] == InverseKey(m, keys, last);
    assert AddBack(m, s, keys[0]);
  }

  // ----- The parts of AES -----

  datatype Box<!T> = Box(g: Field<T>, s: T -> T, inv: T -> T)

  predicate Undone<T(==)>(box: Box<T>, a: T) {
    box.inv(box.s(a)) == a
  }

  predicate Cancels<T(==)>(g: Field<T>, a: T, k: T) {
    g.add(g.add(a, k), k) == a
  }

  ghost predicate LawfulBox<T(!new)>(box: Box<T>) {
    && Lawful(box.g) && (forall a :: Undone(box, a)) && (forall a, k :: Cancels(box.g, a, k))
  }

  // ----- States -----

  datatype State<T> = State(c0: Col<T>, c1: Col<T>, c2: Col<T>, c3: Col<T>)

  function SubCol<T>(box: Box<T>, a: T, b: T, c: T, d: T): Col<T> {
    Col(box.s(a), box.s(b), box.s(c), box.s(d))
  }

  /** SubBytes and ShiftRows, sections 5.1.1 and 5.1.2. */
  function SubShift<T>(box: Box<T>, s: State<T>): State<T> {
    State(SubCol(box, s.c0.b0, s.c1.b1, s.c2.b2, s.c3.b3), SubCol(box, s.c1.b0, s.c2.b1, s.c3.b2, s.c0.b3),
          SubCol(box, s.c2.b0, s.c3.b1, s.c0.b2, s.c1.b3), SubCol(box, s.c3.b0, s.c0.b1, s.c1.b2, s.c2.b3))
  }

  function InvCol<T>(box: Box<T>, a: T, b: T, c: T, d: T): Col<T> {
    Col(box.inv(a), box.inv(b), box.inv(c), box.inv(d))
  }

  /** InvShiftRows and InvSubBytes, sections 5.3.1 and 5.3.2. */
  function InvSubShift<T>(box: Box<T>, s: State<T>): State<T> {
    State(InvCol(box, s.c0.b0, s.c3.b1, s.c2.b2, s.c1.b3), InvCol(box, s.c1.b0, s.c0.b1, s.c3.b2, s.c2.b3),
          InvCol(box, s.c2.b0, s.c1.b1, s.c0.b2, s.c3.b3), InvCol(box, s.c3.b0, s.c2.b1, s.c1.b2, s.c0.b3))
  }

  function MixAll<T>(g: Field<T>, s: State<T>): State<T> {
    State(Mix(g, s.c0), Mix(g, s.c1), Mix(g, s.c2), Mix(g, s.c3))
  }

  function InvMixAll<T>(g: Field<T>, s: State<T>): State<T> {
    State(InvMix(g, s.c0), InvMix(g, s.c1), InvMix(g, s.c2), InvMix(g, s.c3))
  }

  function AddAll<T>(g: Field<T>, s: State<T>, k: State<T>): State<T> {
    State(AddCol(g, s.c0, k.c0), AddCol(g, s.c1, k.c1), AddCol(g, s.c2, k.c2), AddCol(g, s.c3, k.c3))
  }

  lemma ColUndone<T(!new)>(box: Box<T>, c: Col<T>)
    requires LawfulBox(box)
    ensures Col(box.inv(box.s(c.b0)), box.inv(box.s(c.b1)), box.inv(box.s(c.b2)), box.inv(box.s(c.b3))) == c
  {
    assert Undone(box, c.b0) && Undone(box, c.b1) && Undone(box, c.b2) && Undone(box, c.b3);
  }

  lemma SubShiftUndone<T(!new)>(box: Box<T>, s: State<T>)
    requires LawfulBox(box)
    ensures InvSubShift(box, SubShift(box, s)) == s
  {
    ColUndone(box, s.c0);
    ColUndone(box, s.c1);
    ColUndone(box, s.c2);
    ColUndone(box, s.c3);
  }

  lemma ColCancels<T(!new)>(box: Box<T>, c: Col<T>, k: Col<T>)
    requires LawfulBox(box)
    ensures AddCol(box.g, AddCol(box.g, c, k), k) == c
  {
    assert Cancels(box.g, c.b0, k.b0) && Cancels(box.g, c.b1, k.b1) && Cancels(box.g, c.b2, k.b2)
           && Cancels(box.g, c.b3, k.b3);
  }

  lemma AddUndone<T(!new)>(box: Box<T>, s: State<T>, k: State<T>)
    requires LawfulBox(box)
    ensures AddAll(box.g, AddAll(box.g, s, k), k) == s
  {
    ColCancels(box, s.c0, k.c0);
    ColCancels(box, s.c1, k.c1);
    ColCancels(box, s.c2, k.c2);
    ColCancels(box, s.c3, k.c3);
  }

  lemma MixUndone<T(!new)>(g: Field<T>, s: State<T>)
    requires Lawful(g)
    ensures InvMixAll(g, MixAll(g, s)) == s
  {
    Unmixes(g, s.c0);
    Unmixes(g, s.c1);
    Unmixes(g, s.c2);
    Unmixes(g, s.c3);
  }

  lemma InvMixAllAdds<T(!new)>(g: Field<T>, s: State<T>, k: State<T>)
    requires Lawful(g)
    ensures InvMixAll(g, AddAll(g, s, k)) == AddAll(g, InvMixAll(g, s), InvMixAll(g, k))
  {
    InvMixAdds(g, s.c0, k.c0);
    InvMixAdds(g, s.c1, k.c1);
    InvMixAdds(g, s.c2, k.c2);
    InvMixAdds(g, s.c3, k.c3);
  }

  function Round<T>(box: Box<T>, s: State<T>, k: State<T>): State<T> {
    AddAll(box.g, MixAll(box.g, SubShift(box, s)), k)
  }

  function InvRound<T>(box: Box<T>, s: State<T>, k: State<T>): State<T> {
    AddAll(box.g, InvMixAll(box.g, InvSubShift(box, s)), k)
  }

  /** The key put through InvMixColumns fits: mixing is linear. */
  lemma RoundUndone<T(!new)>(box: Box<T>, t: State<T>, k: State<T>)
    requires LawfulBox(box)
    ensures InvRound(box, SubShift(box, Round(box, t, k)), InvMixAll(box.g, k)) == SubShift(box, t)
  {
    var mixed := MixAll(box.g, SubShift(box, t));
    SubShiftUndone(box, Round(box, t, k));
    InvMixAllAdds(box.g, mixed, k);
    AddUndone(box, InvMixAll(box.g, mixed), InvMixAll(box.g, k));
    MixUndone(box.g, SubShift(box, t));
  }

  function MachineOf<T>(box: Box<T>): Machine<State<T>> {
    Machine((s, k) => AddAll(box.g, s, k), s => SubShift(box, s), s => InvSubShift(box, s),
            (s, k) => Round(box, s, k), (s, k) => InvRound(box, s, k), k => InvMixAll(box.g, k))
  }

  lemma MachineReversible<T(!new)>(box: Box<T>)
    requires LawfulBox(box)
    ensures Reversible(MachineOf(box))
  {
    var m := MachineOf(box);
    forall s, k ensures AddBack(m, s, k) && RoundBack(m, s, k) {
      AddUndone(box, s, k);
      RoundUndone(box, s, k);
    }
    forall s ensures SubBack(m, s) {
      SubShiftUndone(box, s);
    }
  }
}
