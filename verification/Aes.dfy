/** The AES cipher of the kernel: key expansion, encryption and decryption over arrays of
    words. */
module Aes {
  import opened AesAlgebra
  import opened AesRounds
  import opened AesRegisters

  // ----- The key schedule of FIPS 197, section 5.2 -----

  /** What is added to the word one key length back. */
  function Temp<T, W>(tb: Tables<T, W>, rco: seq<W>, nk: nat, i: nat, prev: W): W
    requires nk > 0 && i >= nk && i / nk <= |rco|
  {
    if i % nk == 0 then tb.rs.xor(LsBox(tb, tb.rs.ror8(prev)), rco[i / nk - 1])
    else if nk > 6 && i % nk == 4 then LsBox(tb, prev)
    else prev
  }

  ghost predicate WordOk<T, W>(tb: Tables<T, W>, rco: seq<W>, w: seq<W>, nk: nat, i: nat) {
    && 0 < nk <= i < |w| && i / nk <= |rco|
    && w[i] == tb.rs.xor(Temp(tb, rco, nk, i, w[i - 1]), w[i - nk])
  }

  ghost predicate Schedule<T, W>(tb: Tables<T, W>, rco: seq<W>, w: seq<W>, nk: nat, end: nat) {
    forall i :: nk <= i < end ==> WordOk(tb, rco, w, nk, i)
  }

  lemma ScheduleGrows<T, W>(tb: Tables<T, W>, rco: seq<W>, w: seq<W>, w': seq<W>, nk: nat, i: nat)
    requires Schedule(tb, rco, w, nk, i) && i < |w'| == |w| && w' == w[i := w'[i]] && WordOk(tb, rco, w', nk, i)
    ensures Schedule(tb, rco, w', nk, i + 1)
  {
    forall j | nk <= j < i + 1 ensures WordOk(tb, rco, w', nk, j) {
      if j < i {
        assert WordOk(tb, rco, w, nk, j);
      }
    }
  }

  // ----- Words and states -----

  function StateAt<T, W>(rs: Registers<T, W>, w: seq<W>, k: nat): State<T>
    requires k + 4 <= |w|
  {
    State(rs.split(w[k]), rs.split(w[k + 1]), rs.split(w[k + 2]), rs.split(w[k + 3]))
  }

  function Keys<T, W>(rs: Registers<T, W>, w: seq<W>, n: nat): seq<State<T>>
    requires 4 * n <= |w|
  {
    seq(n, r requires 0 <= r < n => StateAt(rs, w, 4 * r))
  }

  /** Where the word `i` of the cipher's keys goes among those of the inverse. */
  function Place(last: nat, i: nat): int {
    last - (i - i % 4) + i % 4
  }

  lemma PlaceIs(rounds: nat, r: nat, c: nat)
    requires r <= rounds && c < 4
    ensures var i := 4 * (rounds - r) + c;
            i < 4 * rounds + 4 && Place(4 * rounds, i) == 4 * r + c && (4 <= i < 4 * rounds <==> 0 < r < rounds)
  {
    assert (4 * (rounds - r) + c) % 4 == c;
  }

  /** The words of the equivalent inverse: the blocks of four from the last to the first, with
      imix_col on all but the outer ones. */
  ghost predicate DecWord<T, W>(rs: Registers<T, W>, enc: seq<W>, dec: seq<W>, last: nat, i: nat) {
    && i < last + 4 && last + 4 <= |enc| && 0 <= Place(last, i) < |dec|
    && dec[Place(last, i)] == if 4 <= i < last then ImixCol(rs, enc[i]) else enc[i]
  }

  ghost predicate DecWords<T, W>(rs: Registers<T, W>, enc: seq<W>, dec: seq<W>, last: nat) {
    && last + 4 <= |enc| && last + 4 <= |dec|
    && forall i :: 0 <= i < last + 4 ==> DecWord(rs, enc, dec, last, i)
  }

  lemma DecWordAt<T, W>(rs: Registers<T, W>, enc: seq<W>, dec: seq<W>, rounds: nat, r: nat, c: nat)
    requires DecWords(rs, enc, dec, 4 * rounds) && r <= rounds && c < 4
    ensures 0 < r < rounds ==> dec[4 * r + c] == ImixCol(rs, enc[4 * (rounds - r) + c])
    ensures r == 0 || r == rounds ==> dec[4 * r + c] == enc[4 * (rounds - r) + c]
  {
    PlaceIs(rounds, r, c);
    assert DecWord(rs, enc, dec, 4 * rounds, 4 * (rounds - r) + c);
  }

  lemma DecBlockInner<T(!new), W(!new)>(rs: Registers<T, W>, enc: seq<W>, dec: seq<W>, rounds: nat, r: nat)
    requires HoldColumns(rs) && DecWords(rs, enc, dec, 4 * rounds) && 0 < r < rounds
    ensures StateAt(rs, dec, 4 * r) == InvMixAll(rs.g, StateAt(rs, enc, 4 * (rounds - r)))
  {
    DecWordAt(rs, enc, dec, rounds, r, 0);
    DecWordAt(rs, enc, dec, rounds, r, 1);
    DecWordAt(rs, enc, dec, rounds, r, 2);
    DecWordAt(rs, enc, dec, rounds, r, 3);
    ImixIsInvMix(rs, enc[4 * (rounds - r)]);
    ImixIsInvMix(rs, enc[4 * (rounds - r) + 1]);
    ImixIsInvMix(rs, enc[4 * (rounds - r) + 2]);
    ImixIsInvMix(rs, enc[4 * (rounds - r) + 3]);
  }

  lemma DecBlockOuter<T, W>(rs: Registers<T, W>, enc: seq<W>, dec: seq<W>, rounds: nat, r: nat)
    requires DecWords(rs, enc, dec, 4 * rounds) && (r == 0 || r == rounds)
    ensures StateAt(rs, dec, 4 * r) == StateAt(rs, enc, 4 * (rounds - r))
  {
    DecWordAt(rs, enc, dec, rounds, r, 0);
    DecWordAt(rs, enc, dec, rounds, r, 1);
    DecWordAt(rs, enc, dec, rounds, r, 2);
    DecWordAt(rs, enc, dec, rounds, r, 3);
  }

  lemma KeysAt<T, W>(rs: Registers<T, W>, w: seq<W>, n: nat, r: nat)
    requires r < n && 4 * n <= |w|
    ensures |Keys(rs, w, n)| == n && Keys(rs, w, n)[r] == StateAt(rs, w, 4 * r)
  {
  }

  lemma MachineKey<T>(box: Box<T>, k: State<T>)
    ensures MachineOf(box).key(k) == InvMixAll(box.g, k)
  {
  }

  /** `m` treats the keys of the inverse as InvMixColumns does. */
  predicate MixesKey<T(==)>(g: Field<T>, m: Machine<State<T>>, k: State<T>) {
    m.key(k) == InvMixAll(g, k)
  }

  lemma DecKeyInner<T(!new), W(!new)>(rs: Registers<T, W>, m: Machine<State<T>>, enc: seq<W>, dec: seq<W>, rounds: nat,
      r: nat)
    requires HoldColumns(rs) && DecWords(rs, enc, dec, 4 * rounds) && 0 < r < rounds
    requires MixesKey(rs.g, m, StateAt(rs, enc, 4 * (rounds - r)))
    ensures m.key(StateAt(rs, enc, 4 * (rounds - r))) == StateAt(rs, dec, 4 * r)
  {
    DecBlockInner(rs, enc, dec, rounds, r);
  }

  /** The key of round `r` of the inverse, as the machine makes it. */
  ghost predicate DecKey<S>(m: Machine<S>, k: S, k': S, r: nat, rounds: nat) {
    if 0 < r < rounds then m.key(k) == k' else k == k'
  }

  ghost predicate DecKeyHere<T, W>(rs: Registers<T, W>, m: Machine<State<T>>, enc: seq<W>, dec: seq<W>, rounds: nat,
      r: nat) {
    && r <= rounds && 4 * rounds + 4 <= |enc| && 4 * rounds + 4 <= |dec|
    && DecKey(m, StateAt(rs, enc, 4 * (rounds - r)), StateAt(rs, dec, 4 * r), r, rounds)
  }

  ghost predicate DecKeysHere<T, W>(rs: Registers<T, W>, m: Machine<State<T>>, enc: seq<W>, dec: seq<W>, rounds: nat) {
    forall r :: 0 <= r <= rounds ==> DecKeyHere(rs, m, enc, dec, rounds, r)
  }

  lemma DecKeyIs<T(!new), W(!new)>(tb: Tables<T, W>, m: Machine<State<T>>, enc: seq<W>, dec: seq<W>, rounds: nat,
      r: nat)
    requires Fitting(tb) && m == MachineOf(tb.box) && DecWords(tb.rs, enc, dec, 4 * rounds) && r <= rounds
    ensures DecKeyHere(tb.rs, m, enc, dec, rounds, r)
  {
    if 0 < r < rounds {
      MachineKey(tb.box, StateAt(tb.rs, enc, 4 * (rounds - r)));
      DecKeyInner(tb.rs, m, enc, dec, rounds, r);
    } else {
      DecBlockOuter(tb.rs, enc, dec, rounds, r);
    }
  }

  lemma DecKeysAre<T(!new), W(!new)>(tb: Tables<T, W>, m: Machine<State<T>>, enc: seq<W>, dec: seq<W>, rounds: nat)
    requires Fitting(tb) && m == MachineOf(tb.box) && DecWords(tb.rs, enc, dec, 4 * rounds)
    ensures DecKeysHere(tb.rs, m, enc, dec, rounds)
  {
    forall r | 0 <= r <= rounds ensures DecKeyHere(tb.rs, m, enc, dec, rounds, r) {
      DecKeyIs(tb, m, enc, dec, rounds, r);
    }
  }

  ghost predicate DecKeyOf<S>(m: Machine<S>, keys: seq<S>, inverse: seq<S>, r: nat) {
    r < |keys| == |inverse| && DecKey(m, keys[|keys| - 1 - r], inverse[r], r, |keys| - 1)
  }

  ghost predicate DecKeysOf<S>(m: Machine<S>, keys: seq<S>, inverse: seq<S>) {
    |keys| == |inverse| && forall r :: 0 <= r < |keys| ==> DecKeyOf(m, keys, inverse, r)
  }

  lemma DecKeysInvert<S>(m: Machine<S>, keys: seq<S>, inverse: seq<S>)
    requires DecKeysOf(m, keys, inverse)
    ensures InverseKeys(m, keys, inverse)
  {
    forall r | 0 <= r < |keys| ensures inverse[r] == InverseKey(m, keys, r) {
      assert DecKeyOf(m, keys, inverse, r);
    }
  }

  lemma DecKeyAt<T, W>(rs: Registers<T, W>, m: Machine<State<T>>, enc: seq<W>, dec: seq<W>, keys: seq<State<T>>,
      inverse: seq<State<T>>, r: nat)
    requires r < |keys| && DecKeyHere(rs, m, enc, dec, |keys| - 1, r) && keys == Keys(rs, enc, |keys|)
             && inverse == Keys(rs, dec, |keys|)
    ensures DecKeyOf(m, keys, inverse, r)
  {
    KeysAt(rs, dec, |keys|, r);
    KeysAt(rs, enc, |keys|, |keys| - 1 - r);
  }

  lemma DecKeysAt<T, W>(rs: Registers<T, W>, m: Machine<State<T>>, enc: seq<W>, dec: seq<W>, keys: seq<State<T>>,
      inverse: seq<State<T>>)
    requires keys != [] && 4 * |keys| <= |enc| && 4 * |keys| <= |dec|
    requires DecKeysHere(rs, m, enc, dec, |keys| - 1) && keys == Keys(rs, enc, |keys|)
             && inverse == Keys(rs, dec, |keys|)
    ensures DecKeysOf(m, keys, inverse)
  {
    forall r | 0 <= r < |keys| ensures DecKeyOf(m, keys, inverse, r) {
      assert DecKeyHere(rs, m, enc, dec, |keys| - 1, r);
      DecKeyAt(rs, m, enc, dec, keys, inverse, r);
    }
  }

  lemma DecWordsInvert<T(!new), W(!new)>(tb: Tables<T, W>, enc: seq<W>, dec: seq<W>, rounds: nat)
    requires Fitting(tb) && DecWords(tb.rs, enc, dec, 4 * rounds)
    ensures InverseKeys(MachineOf(tb.box), Keys(tb.rs, enc, rounds + 1), Keys(tb.rs, dec, rounds + 1))
  {
    var m, keys, inverse := MachineOf(tb.box), Keys(tb.rs, enc, rounds + 1), Keys(tb.rs, dec, rounds + 1);
    DecKeysAre(tb, m, enc, dec, rounds);
    DecKeysAt(tb.rs, m, enc, dec, keys, inverse);
    DecKeysInvert(m, keys, inverse);
  }

  // ----- Blocks of four words -----

  function AddWords<T, W>(rs: Registers<T, W>, b: seq<W>, w: seq<W>): seq<W>
    requires |b| == 4 && |w| >= 4
  {
    [rs.xor(b[0], w[0]), rs.xor(b[1], w[1]), rs.xor(b[2], w[2]), rs.xor(b[3], w[3])]
  }

  /** The columns of a block. */
  function ColsOf<T, W>(rs: Registers<T, W>, b: seq<W>): State<T>
    requires |b| == 4
  {
    State(rs.split(b[0]), rs.split(b[1]), rs.split(b[2]), rs.split(b[3]))
  }

  /** f_nround */
  function ForwardWords<T, W>(tb: Tables<T, W>, b: seq<W>, w: seq<W>, k: nat): seq<W>
    requires |b| == 4 && k + 4 <= |w|
  {
    var s := ColsOf(tb.rs, b);
    [ForwardWord(tb, s.c0.b0, s.c1.b1, s.c2.b2, s.c3.b3, w[k]),
     ForwardWord(tb, s.c1.b0, s.c2.b1, s.c3.b2, s.c0.b3, w[k + 1]),
     ForwardWord(tb, s.c2.b0, s.c3.b1, s.c0.b2, s.c1.b3, w[k + 2]),
     ForwardWord(tb, s.c3.b0, s.c0.b1, s.c1.b2, s.c2.b3, w[k + 3])]
  }

  /** f_lround */
  function ForwardLastWords<T, W>(tb: Tables<T, W>, b: seq<W>, w: seq<W>, k: nat): seq<W>
    requires |b| == 4 && k + 4 <= |w|
  {
    var s := ColsOf(tb.rs, b);
    [ForwardLast(tb, s.c0.b0, s.c1.b1, s.c2.b2, s.c3.b3, w[k]),
     ForwardLast(tb, s.c1.b0, s.c2.b1, s.c3.b2, s.c0.b3, w[k + 1]),
     ForwardLast(tb, s.c2.b0, s.c3.b1, s.c0.b2, s.c1.b3, w[k + 2]),
     ForwardLast(tb, s.c3.b0, s.c0.b1, s.c1.b2, s.c2.b3, w[k + 3])]
  }

  /** i_nround */
  function BackWords<T, W>(tb: Tables<T, W>, b: seq<W>, w: seq<W>, k: nat): seq<W>
    requires |b| == 4 && k + 4 <= |w|
  {
    var s := ColsOf(tb.rs, b);
    [BackWord(tb, s.c0.b0, s.c3.b1, s.c2.b2, s.c1.b3, w[k]), BackWord(tb, s.c1.b0, s.c0.b1, s.c3.b2, s.c2.b3, w[k + 1]),
     BackWord(tb, s.c2.b0, s.c1.b1, s.c0.b2, s.c3.b3, w[k + 2]),
     BackWord(tb, s.c3.b0, s.c2.b1, s.c1.b2, s.c0.b3, w[k + 3])]
  }

  /** i_lround */
  function BackLastWords<T, W>(tb: Tables<T, W>, b: seq<W>, w: seq<W>, k: nat): seq<W>
    requires |b| == 4 && k + 4 <= |w|
  {
    var s := ColsOf(tb.rs, b);
    [BackLast(tb, s.c0.b0, s.c3.b1, s.c2.b2, s.c1.b3, w[k]), BackLast(tb, s.c1.b0, s.c0.b1, s.c3.b2, s.c2.b3, w[k + 1]),
     BackLast(tb, s.c2.b0, s.c1.b1, s.c0.b2, s.c3.b3, w[k + 2]),
     BackLast(tb, s.c3.b0, s.c2.b1, s.c1.b2, s.c0.b3, w[k + 3])]
  }

  lemma ForwardWordsAre<T(!new), W(!new)>(tb: Tables<T, W>, b: seq<W>, w: seq<W>, k: nat)
    requires Fitting(tb) && |b| == 4 && k + 4 <= |w|
    ensures ColsOf(tb.rs, ForwardWords(tb, b, w, k)) == Round(tb.box, ColsOf(tb.rs, b), StateAt(tb.rs, w, k))
  {
    var s := ColsOf(tb.rs, b);
    ForwardSplits(tb, s.c0.b0, s.c1.b1, s.c2.b2, s.c3.b3, w[k]);
    ForwardSplits(tb, s.c1.b0, s.c2.b1, s.c3.b2, s.c0.b3, w[k + 1]);
    ForwardSplits(tb, s.c2.b0, s.c3.b1, s.c0.b2, s.c1.b3, w[k + 2]);
    ForwardSplits(tb, s.c3.b0, s.c0.b1, s.c1.b2, s.c2.b3, w[k + 3]);
  }

  lemma ForwardLastWordsAre<T(!new), W(!new)>(tb: Tables<T, W>, b: seq<W>, w: seq<W>, k: nat)
    requires Fitting(tb) && |b| == 4 && k + 4 <= |w|
    ensures ColsOf(tb.rs, ForwardLastWords(tb, b, w, k))
            == AddAll(tb.box.g, SubShift(tb.box, ColsOf(tb.rs, b)), StateAt(tb.rs, w, k))
  {
    var s := ColsOf(tb.rs, b);
    ForwardLastSplits(tb, s.c0.b0, s.c1.b1, s.c2.b2, s.c3.b3, w[k]);
    ForwardLastSplits(tb, s.c1.b0, s.c2.b1, s.c3.b2, s.c0.b3, w[k + 1]);
    ForwardLastSplits(tb, s.c2.b0, s.c3.b1, s.c0.b2, s.c1.b3, w[k + 2]);
    ForwardLastSplits(tb, s.c3.b0, s.c0.b1, s.c1.b2, s.c2.b3, w[k + 3]);
  }

  lemma BackWordsAre<T(!new), W(!new)>(tb: Tables<T, W>, b: seq<W>, w: seq<W>, k: nat)
    requires Fitting(tb) && |b| == 4 && k + 4 <= |w|
    ensures ColsOf(tb.rs, BackWords(tb, b, w, k)) == InvRound(tb.box, ColsOf(tb.rs, b), StateAt(tb.rs, w, k))
  {
    var s := ColsOf(tb.rs, b);
    BackSplits(tb, s.c0.b0, s.c3.b1, s.c2.b2, s.c1.b3, w[k]);
    BackSplits(tb, s.c1.b0, s.c0.b1, s.c3.b2, s.c2.b3, w[k + 1]);
    BackSplits(tb, s.c2.b0, s.c1.b1, s.c0.b2, s.c3.b3, w[k + 2]);
    BackSplits(tb, s.c3.b0, s.c2.b1, s.c1.b2, s.c0.b3, w[k + 3]);
  }

  lemma BackLastWordsAre<T(!new), W(!new)>(tb: Tables<T, W>, b: seq<W>, w: seq<W>, k: nat)
    requires Fitting(tb) && |b| == 4 && k + 4 <= |w|
    ensures ColsOf(tb.rs, BackLastWords(tb, b, w, k))
            == AddAll(tb.box.g, InvSubShift(tb.box, ColsOf(tb.rs, b)), StateAt(tb.rs, w, k))
  {
    var s := ColsOf(tb.rs, b);
    BackLastSplits(tb, s.c0.b0, s.c3.b1, s.c2.b2, s.c1.b3, w[k]);
    BackLastSplits(tb, s.c1.b0, s.c0.b1, s.c3.b2, s.c2.b3, w[k + 1]);
    BackLastSplits(tb, s.c2.b0, s.c1.b1, s.c0.b2, s.c3.b3, w[k + 2]);
    BackLastSplits(tb, s.c3.b0, s.c2.b1, s.c1.b2, s.c0.b3, w[k + 3]);
  }

  lemma AddWordsAre<T(!new), W(!new)>(rs: Registers<T, W>, b: seq<W>, w: seq<W>)
    requires HoldColumns(rs) && |b| == 4 && |w| >= 4
    ensures ColsOf(rs, AddWords(rs, b, w)) == AddAll(rs.g, ColsOf(rs, b), StateAt(rs, w, 0))
  {
    assert XorSplits(rs, b[0], w[0]) && XorSplits(rs, b[1], w[1]) && XorSplits(rs, b[2], w[2])
           && XorSplits(rs, b[3], w[3]);
  }

  // ----- Whole blocks -----

  /** The words after the first `r` rounds. */
  function WordsForward<T, W>(tb: Tables<T, W>, w: seq<W>, b: seq<W>, r: nat): (c: seq<W>)
    requires |b| == 4 && 4 * r + 4 <= |w|
    ensures |c| == 4
  {
    if r == 0 then AddWords(tb.rs, b, w) else ForwardWords(tb, WordsForward(tb, w, b, r - 1), w, 4 * r)
  }

  function WordsBack<T, W>(tb: Tables<T, W>, w: seq<W>, b: seq<W>, r: nat): (c: seq<W>)
    requires |b| == 4 && 4 * r + 4 <= |w|
    ensures |c| == 4
  {
    if r == 0 then AddWords(tb.rs, b, w) else BackWords(tb, WordsBack(tb, w, b, r - 1), w, 4 * r)
  }

  lemma MachineSteps<T>(box: Box<T>, s: State<T>, k: State<T>)
    ensures MachineOf(box).add(s, k) == AddAll(box.g, s, k)
    ensures MachineOf(box).round(s, k) == Round(box, s, k)
    ensures MachineOf(box).back(s, k) == InvRound(box, s, k)
    ensures MachineOf(box).sub(s) == SubShift(box, s)
    ensures MachineOf(box).inv(s) == InvSubShift(box, s)
  {
  }

  lemma StartIs<T(!new), W(!new)>(tb: Tables<T, W>, m: Machine<State<T>>, b: seq<W>, w: seq<W>, k: State<T>)
    requires Fitting(tb) && m == MachineOf(tb.box) && |b| == 4 && |w| >= 4 && k == StateAt(tb.rs, w, 0)
    ensures ColsOf(tb.rs, AddWords(tb.rs, b, w)) == m.add(ColsOf(tb.rs, b), k)
  {
    AddWordsAre(tb.rs, b, w);
    MachineSteps(tb.box, ColsOf(tb.rs, b), k);
  }

  lemma ForwardIs<T(!new), W(!new)>(tb: Tables<T, W>, m: Machine<State<T>>, b: seq<W>, s: State<T>, w: seq<W>, at: nat,
      k: State<T>)
    requires Fitting(tb) && m == MachineOf(tb.box) && |b| == 4 && s == ColsOf(tb.rs, b) && at + 4 <= |w|
             && k == StateAt(tb.rs, w, at)
    ensures ColsOf(tb.rs, ForwardWords(tb, b, w, at)) == m.round(s, k)
  {
    ForwardWordsAre(tb, b, w, at);
    MachineSteps(tb.box, s, k);
  }

  lemma BackIs<T(!new), W(!new)>(tb: Tables<T, W>, m: Machine<State<T>>, b: seq<W>, s: State<T>, w: seq<W>, at: nat,
      k: State<T>)
    requires Fitting(tb) && m == MachineOf(tb.box) && |b| == 4 && s == ColsOf(tb.rs, b) && at + 4 <= |w|
             && k == StateAt(tb.rs, w, at)
    ensures ColsOf(tb.rs, BackWords(tb, b, w, at)) == m.back(s, k)
  {
    BackWordsAre(tb, b, w, at);
    MachineSteps(tb.box, s, k);
  }

  lemma {:induction false} WordsForwardAre<T(!new), W(!new)>(tb: Tables<T, W>, m: Machine<State<T>>, w: seq<W>,
      b: seq<W>, keys: seq<State<T>>, r: nat)
    requires Fitting(tb) && m == MachineOf(tb.box) && |b| == 4 && r < |keys| && 4 * |keys| <= |w|
             && keys == Keys(tb.rs, w, |keys|)
    ensures ColsOf(tb.rs, WordsForward(tb, w, b, r)) == Forward(m, keys, ColsOf(tb.rs, b), r)
    decreases r
  {
    KeysAt(tb.rs, w, |keys|, r);
    if r == 0 {
      StartIs(tb, m, b, w, keys[0]);
    } else {
      WordsForwardAre(tb, m, w, b, keys, r - 1);
      ForwardIs(tb, m, WordsForward(tb, w, b, r - 1), Forward(m, keys, ColsOf(tb.rs, b), r - 1), w, 4 * r, keys[r]);
    }
  }

  lemma {:induction false} WordsBackAre<T(!new), W(!new)>(tb: Tables<T, W>, m: Machine<State<T>>, w: seq<W>, b: seq<W>,
      keys: seq<State<T>>, r: nat)
    requires Fitting(tb) && m == MachineOf(tb.box) && |b| == 4 && r < |keys| && 4 * |keys| <= |w|
             && keys == Keys(tb.rs, w, |keys|)
    ensures ColsOf(tb.rs, WordsBack(tb, w, b, r)) == Backward(m, keys, ColsOf(tb.rs, b), r)
    decreases r
  {
    KeysAt(tb.rs, w, |keys|, r);
    if r == 0 {
      StartIs(tb, m, b, w, keys[0]);
    } else {
      WordsBackAre(tb, m, w, b, keys, r - 1);
      BackIs(tb, m, WordsBack(tb, w, b, r - 1), Backward(m, keys, ColsOf(tb.rs, b), r - 1), w, 4 * r, keys[r]);
    }
  }

  /** aes_encrypt, in `rounds` rounds. */
  function EncryptWords<T, W>(tb: Tables<T, W>, w: seq<W>, b: seq<W>, rounds: nat): (c: seq<W>)
    requires |b| == 4 && rounds > 0 && 4 * rounds + 4 <= |w|
    ensures |c| == 4
  {
    ForwardLastWords(tb, WordsForward(tb, w, b, rounds - 1), w, 4 * rounds)
  }

  /** aes_decrypt, in `rounds` rounds. */
  function DecryptWords<T, W>(tb: Tables<T, W>, w: seq<W>, b: seq<W>, rounds: nat): (c: seq<W>)
    requires |b| == 4 && rounds > 0 && 4 * rounds + 4 <= |w|
    ensures |c| == 4
  {
    BackLastWords(tb, WordsBack(tb, w, b, rounds - 1), w, 4 * rounds)
  }

  lemma LastIs<T(!new), W(!new)>(tb: Tables<T, W>, m: Machine<State<T>>, b: seq<W>, s: State<T>, w: seq<W>, at: nat,
      k: State<T>)
    requires Fitting(tb) && m == MachineOf(tb.box) && |b| == 4 && s == ColsOf(tb.rs, b) && at + 4 <= |w|
             && k == StateAt(tb.rs, w, at)
    ensures ColsOf(tb.rs, ForwardLastWords(tb, b, w, at)) == m.add(m.sub(s), k)
  {
    ForwardLastWordsAre(tb, b, w, at);
    MachineSteps(tb.box, s, k);
    MachineSteps(tb.box, SubShift(tb.box, s), k);
  }

  lemma BackLastIs<T(!new), W(!new)>(tb: Tables<T, W>, m: Machine<State<T>>, b: seq<W>, s: State<T>, w: seq<W>, at: nat,
      k: State<T>)
    requires Fitting(tb) && m == MachineOf(tb.box) && |b| == 4 && s == ColsOf(tb.rs, b) && at + 4 <= |w|
             && k == StateAt(tb.rs, w, at)
    ensures ColsOf(tb.rs, BackLastWords(tb, b, w, at)) == m.add(m.inv(s), k)
  {
    BackLastWordsAre(tb, b, w, at);
    MachineSteps(tb.box, s, k);
    MachineSteps(tb.box, InvSubShift(tb.box, s), k);
  }

  /** Encryption by the tables is the cipher of FIPS 197. */
  lemma EncryptIsCipher<T(!new), W(!new)>(tb: Tables<T, W>, m: Machine<State<T>>, w: seq<W>, b: seq<W>,
      keys: seq<State<T>>)
    requires Fitting(tb) && m == MachineOf(tb.box) && |b| == 4 && |keys| >= 2 && 4 * |keys| <= |w|
             && keys == Keys(tb.rs, w, |keys|)
    ensures ColsOf(tb.rs, EncryptWords(tb, w, b, |keys| - 1)) == Cipher(m, keys, ColsOf(tb.rs, b))
  {
    var last := |keys| - 1;
    WordsForwardAre(tb, m, w, b, keys, last - 1);
    KeysAt(tb.rs, w, |keys|, last);
    LastIs(tb, m, WordsForward(tb, w, b, last - 1), Forward(m, keys, ColsOf(tb.rs, b), last - 1), w, 4 * last,
           keys[last]);
  }

  /** Decryption by the tables is the equivalent inverse cipher. */
  lemma DecryptIsInverse<T(!new), W(!new)>(tb: Tables<T, W>, m: Machine<State<T>>, w: seq<W>, b: seq<W>,
      keys: seq<State<T>>)
    requires Fitting(tb) && m == MachineOf(tb.box) && |b| == 4 && |keys| >= 2 && 4 * |keys| <= |w|
             && keys == Keys(tb.rs, w, |keys|)
    ensures ColsOf(tb.rs, DecryptWords(tb, w, b, |keys| - 1)) == EqInvCipher(m, keys, ColsOf(tb.rs, b))
  {
    var last := |keys| - 1;
    WordsBackAre(tb, m, w, b, keys, last - 1);
    KeysAt(tb.rs, w, |keys|, last);
    BackLastIs(tb, m, WordsBack(tb, w, b, last - 1), Backward(m, keys, ColsOf(tb.rs, b), last - 1), w, 4 * last,
               keys[last]);
  }

  /** Decryption undoes encryption, whatever the keys, if those of the inverse were made from
      those of the cipher. */
  lemma DecryptUndoes<T(!new), W(!new)>(tb: Tables<T, W>, enc: seq<W>, dec: seq<W>, b: seq<W>, rounds: nat)
    requires Fitting(tb) && |b| == 4 && rounds > 0 && DecWords(tb.rs, enc, dec, 4 * rounds)
    ensures ColsOf(tb.rs, DecryptWords(tb, dec, EncryptWords(tb, enc, b, rounds), rounds)) == ColsOf(tb.rs, b)
  {
    var m, keys, inverse := MachineOf(tb.box), Keys(tb.rs, enc, rounds + 1), Keys(tb.rs, dec, rounds + 1);
    EncryptIsCipher(tb, m, enc, b, keys);
    DecryptIsInverse(tb, m, dec, EncryptWords(tb, enc, b, rounds), inverse);
    MachineReversible(tb.box);
    DecWordsInvert(tb, enc, dec, rounds);
    CipherUndone(m, keys, inverse, ColsOf(tb.rs, b));
  }
}
