/** The context of the cipher: the expanded keys in arrays, and the methods that fill and use
    them. */
module AesContext {
  import opened AesAlgebra
  import opened AesRounds
  import opened AesRegisters
  import opened Aes

  const EINVAL: int := 22

  /** 10, 12 or 14 rounds for a key of 16, 24 or 32 bytes. */
  function Rounds(keyLen: nat): nat {
    if keyLen > 24 then 14 else if keyLen > 16 then 12 else 10
  }

  /** Word `i` only adds the word before it. */
  predicate Plain(nk: nat, i: nat) {
    nk > 0 && i % nk != 0 && !(nk > 6 && i % nk == 4)
  }

  lemma PlaceInjective(last: nat, i: nat, j: nat)
    requires last % 4 == 0 && i < last + 4 && j < last + 4
    ensures 0 <= Place(last, i) < last + 4
    ensures Place(last, i) == Place(last, j) ==> i == j
  {
  }

  class Context<T(!new), W(!new)> {
    const tb: Tables<T, W>
    const rcoTab: seq<W>
    const keyEnc: array<W>
    const keyDec: array<W>
    var keyLength: nat

    ghost predicate Valid()
      reads this
    {
      keyEnc.Length == 60 && keyDec.Length == 60 && keyEnc != keyDec && |rcoTab| == 10
    }

    /** A key was expanded. */
    ghost predicate Keyed()
      reads this, keyEnc, keyDec
    {
      && Valid() && (keyLength == 16 || keyLength == 24 || keyLength == 32)
      && DecWords(tb.rs, keyEnc[..], keyDec[..], 4 * Rounds(keyLength))
    }

    constructor (tb: Tables<T, W>, rcoTab: seq<W>, blank: W)
      requires |rcoTab| == 10
      ensures Valid() && this.tb == tb && this.rcoTab == rcoTab && fresh(keyEnc) && fresh(keyDec)
    {
      this.tb, this.rcoTab, keyLength := tb, rcoTab, 0;
      keyEnc := new W[60](_ => blank);
      keyDec := new W[60](_ => blank);
      new;
    }

    // ----- Key expansion -----

    /** The words before `i` follow the schedule, and `t` is the last of them. */
    ghost predicate Expanded(nk: nat, key: seq<W>, i: nat, t: W)
      reads this, keyEnc
    {
      && Valid() && 0 < nk == |key| <= i <= 60 && (i - 1) / nk <= 10
      && Schedule(tb, rcoTab, keyEnc[..], nk, i) && keyEnc[..nk] == key && t == keyEnc[i - 1]
    }

    /** One word of the schedule. */
    method Put(nk: nat, ghost key: seq<W>, i: nat, ghost last: W, temp: W) returns (t: W)
      requires Expanded(nk, key, i, last) && i < 60 && i / nk <= 10 && temp == Temp(tb, rcoTab, nk, i, last)
      modifies keyEnc
      ensures Expanded(nk, key, i + 1, t)
    {
      ghost var w := keyEnc[..];
      t := tb.rs.xor(temp, keyEnc[i - nk]);
      keyEnc[i] := t;
      assert WordOk(tb, rcoTab, keyEnc[..], nk, i);
      ScheduleGrows(tb, rcoTab, w, keyEnc[..], nk, i);
    }

    /** A word that only adds the one before. */
    method PutPlain(nk: nat, ghost key: seq<W>, i: nat, t0: W) returns (t: W)
      requires Expanded(nk, key, i, t0) && i < 60 && i / nk <= 10 && Plain(nk, i)
      modifies keyEnc
      ensures Expanded(nk, key, i + 1, t)
    {
      t := Put(nk, key, i, t0, t0);
    }

    /** Three such words. */
    method PutThree(nk: nat, ghost key: seq<W>, i: nat, t0: W) returns (t: W)
      requires Expanded(nk, key, i, t0) && i + 2 < 60 && i / nk <= 10 && (i + 1) / nk <= 10 && (i + 2) / nk <= 10
               && Plain(nk, i) && Plain(nk, i + 1) && Plain(nk, i + 2)
      modifies keyEnc
      ensures Expanded(nk, key, i + 3, t)
    {
      t := PutPlain(nk, key, i, t0);
      t := PutPlain(nk, key, i + 1, t);
      t := PutPlain(nk, key, i + 2, t);
    }

    /** The first word of each key length. */
    method PutFirst(nk: nat, ghost key: seq<W>, i: nat, t0: W) returns (t: W)
      requires Expanded(nk, key, nk * i + nk, t0) && nk * i + nk < 60 && i < 10 && (nk == 4 || nk == 6 || nk == 8)
      modifies keyEnc
      ensures Expanded(nk, key, nk * i + nk + 1, t)
    {
      t := tb.rs.ror8(t0);
      t := tb.rs.xor(LsBox(tb, t), rcoTab[i]);
      Multiple(nk, i);
      t := Put(nk, key, nk * i + nk, t0, t);
    }

    method Loop4(ghost key: seq<W>, i: nat, t0: W) returns (t: W)
      requires i < 10 && Expanded(4, key, 4 * i + 4, t0)
      modifies keyEnc
      ensures Expanded(4, key, 4 * i + 8, t)
    {
      t := PutFirst(4, key, i, t0);
      t := PutThree(4, key, 4 * i + 5, t);
    }

    method Loop6(ghost key: seq<W>, i: nat, t0: W) returns (t: W)
      requires i < 8 && Expanded(6, key, 6 * i + 6, t0)
      modifies keyEnc
      ensures Expanded(6, key, 6 * i + 12, t)
    {
      t := PutFirst(6, key, i, t0);
      t := PutThree(6, key, 6 * i + 7, t);
      t := PutPlain(6, key, 6 * i + 10, t);
      t := PutPlain(6, key, 6 * i + 11, t);
    }

    method Loop8TopHalf(ghost key: seq<W>, i: nat, t0: W) returns (t: W)
      requires i < 7 && Expanded(8, key, 8 * i + 8, t0)
      modifies keyEnc
      ensures Expanded(8, key, 8 * i + 12, t)
    {
      t := PutFirst(8, key, i, t0);
      t := PutThree(8, key, 8 * i + 9, t);
    }

    /** The word in the middle of the key length of eight. */
    method PutMiddle(ghost key: seq<W>, n: nat, t0: W) returns (t: W)
      requires HoldColumns(tb.rs) && Expanded(8, key, n, t0) && n < 60 && n % 8 == 4
      modifies keyEnc
      ensures Expanded(8, key, n + 1, t)
    {
      assert XorCommutes(tb.rs, keyEnc[n - 8], LsBox(tb, t0));
      t := tb.rs.xor(keyEnc[n - 8], LsBox(tb, t0));
      ghost var w := keyEnc[..];
      keyEnc[n] := t;
      assert WordOk(tb, rcoTab, keyEnc[..], 8, n);
      ScheduleGrows(tb, rcoTab, w, keyEnc[..], 8, n);
    }

    method Loop8(ghost key: seq<W>, i: nat, t0: W) returns (t: W)
      requires HoldColumns(tb.rs) && i < 6 && Expanded(8, key, 8 * i + 8, t0)
      modifies keyEnc
      ensures Expanded(8, key, 8 * i + 16, t)
    {
      t := Loop8TopHalf(key, i, t0);
      t := PutMiddle(key, 8 * i + 12, t);
      t := PutThree(8, key, 8 * i + 13, t);
    }

    /** The encryption half of crypto_aes_expand_key, for the number of words in the key. */
    method ExpandEnc(key: seq<W>)
      requires Valid() && HoldColumns(tb.rs) && (|key| == 4 || |key| == 6 || |key| == 8)
      modifies keyEnc
      ensures Schedule(tb, rcoTab, keyEnc[..], |key|, 4 * |key| + 28) && keyEnc[..|key|] == key
    {
      var nk := |key|;
      for k := 0 to nk
        invariant keyEnc[..k] == key[..k]
      {
        keyEnc[k] := key[k];
      }
      assert key[..nk] == key;
      var t := keyEnc[nk - 1];
      if nk == 4 {
        for i := 0 to 10
          invariant Expanded(4, key, 4 * i + 4, t)
        {
          t := Loop4(key, i, t);
        }
      } else if nk == 6 {
        for i := 0 to 8
          invariant Expanded(6, key, 6 * i + 6, t)
        {
          t := Loop6(key, i, t);
        }
      } else {
        for i := 0 to 6
          invariant Expanded(8, key, 8 * i + 8, t)
        {
          t := Loop8(key, i, t);
        }
        t := Loop8TopHalf(key, 6, t);
      }
    }

    /** The words of the inverse are there for the first `i` words, and for the last four. */
    ghost predicate DecUpTo(last: nat, i: nat)
      reads this, keyEnc, keyDec
    {
      forall k :: 0 <= k < i || last <= k < last + 4 ==> DecWord(tb.rs, keyEnc[..], keyDec[..], last, k)
    }

    method PutDec(last: nat, i: nat)
      requires Valid() && last % 4 == 0 && 4 <= i < last <= 56 && DecUpTo(last, i)
      modifies keyDec
      ensures DecUpTo(last, i + 1)
    {
      PlaceInjective(last, i, i);
      ghost var before := keyDec[..];
      keyDec[last - (i - i % 4) + i % 4] := ImixCol(tb.rs, keyEnc[i]);
      forall k | 0 <= k < i + 1 || last <= k < last + 4 ensures DecWord(tb.rs, keyEnc[..], keyDec[..], last, k) {
        if k != i {
          PlaceInjective(last, i, k);
          assert DecWord(tb.rs, keyEnc[..], before, last, k);
        }
      }
    }

    /** The first and the last four words. */
    method PutOuter(last: nat)
      requires Valid() && last % 4 == 0 && 4 <= last <= 56
      modifies keyDec
      ensures DecUpTo(last, 4)
    {
      keyDec[last], keyDec[last + 1], keyDec[last + 2], keyDec[last + 3] := keyEnc[0], keyEnc[1], keyEnc[2], keyEnc[3];
      keyDec[0], keyDec[1], keyDec[2], keyDec[3] := keyEnc[last], keyEnc[last + 1], keyEnc[last + 2], keyEnc[last + 3];
      OuterWords(tb.rs, keyEnc[..], keyDec[..], last);
    }

    /** The decryption half: the words of the inverse. */
    method ExpandDec(last: nat)
      requires Valid() && last % 4 == 0 && 4 <= last <= 56
      modifies keyDec
      ensures DecWords(tb.rs, keyEnc[..], keyDec[..], last)
    {
      PutOuter(last);
      for i := 4 to last
        invariant DecUpTo(last, i)
      {
        PutDec(last, i);
      }
    }

    /** crypto_aes_expand_key: fails for any but the three key lengths. */
    method ExpandKey(key: seq<W>, keyLen: nat) returns (err: int)
      requires Valid() && HoldColumns(tb.rs) && (keyLen == 16 || keyLen == 24 || keyLen == 32 ==> keyLen == 4 * |key|)
      modifies this`keyLength, keyEnc, keyDec
      ensures err == 0 <==> keyLen == 16 || keyLen == 24 || keyLen == 32
      ensures err == 0 ==> Keyed() && keyLength == keyLen && keyEnc[..|key|] == key
                           && Schedule(tb, rcoTab, keyEnc[..], |key|, keyLen + 28)
      ensures err != 0
              ==> err == -EINVAL && keyLength == old(keyLength) && keyEnc[..] == old(keyEnc[..])
                  && keyDec[..] == old(keyDec[..])
    {
      if keyLen != 16 && keyLen != 24 && keyLen != 32 {
        return -EINVAL;
      }
      keyLength := keyLen;
      ExpandEnc(key);
      assert keyLen + 24 == 4 * Rounds(keyLen);
      ExpandDec(keyLen + 24);
      return 0;
    }

    // ----- Blocks -----

    predicate Blocks(b0: array<W>, b1: array<W>)
      reads this
    {
      && keyEnc.Length == 60 && keyDec.Length == 60 && b0.Length == 4 && b1.Length == 4
      && b0 != b1 && b0 != keyEnc && b0 != keyDec && b1 != keyEnc && b1 != keyDec
    }

    predicate Lengths()
      reads this
    {
      keyLength == 16 || keyLength == 24 || keyLength == 32
    }

    /** The block with the first four words of the keys added. */
    method Whitened(src: seq<W>, key: array<W>) returns (b: array<W>)
      requires |src| == 4 && key.Length == 60
      ensures fresh(b) && b.Length == 4 && b[..] == AddWords(tb.rs, src, key[..])
    {
      b := new W[4](i requires 0 <= i < 4 => src[i]);
      for n := 0 to 4
        invariant forall i :: 0 <= i < 4 ==> b[i] == if i < n then tb.rs.xor(src[i], key[i]) else src[i]
      {
        b[n] := tb.rs.xor(src[n], key[n]);
      }
      BlockIs(b[..], AddWords(tb.rs, src, key[..]));
    }

    /** f_nround */
    method ForwardRound(bo: array<W>, bi: array<W>, kp: nat, ghost step: (seq<W>, nat) -> seq<W>)
      requires Blocks(bo, bi) && kp + 4 <= 60 && ForwardStep(tb, keyEnc[..], step)
      modifies bo
      ensures bo[..] == step(bi[..], kp)
    {
      var s := tb.rs.split;
      bo[0] := ForwardWord(tb, s(bi[0]).b0, s(bi[1]).b1, s(bi[2]).b2, s(bi[3]).b3, keyEnc[kp]);
      bo[1] := ForwardWord(tb, s(bi[1]).b0, s(bi[2]).b1, s(bi[3]).b2, s(bi[0]).b3, keyEnc[kp + 1]);
      bo[2] := ForwardWord(tb, s(bi[2]).b0, s(bi[3]).b1, s(bi[0]).b2, s(bi[1]).b3, keyEnc[kp + 2]);
      bo[3] := ForwardWord(tb, s(bi[3]).b0, s(bi[0]).b1, s(bi[1]).b2, s(bi[2]).b3, keyEnc[kp + 3]);
      BlockIs(bo[..], ForwardWords(tb, bi[..], keyEnc[..], kp));
      assert IsForward(tb, keyEnc[..], step, bi[..], kp);
    }

    /** f_lround */
    method ForwardLastRound(bo: array<W>, bi: array<W>, kp: nat)
      requires Blocks(bo, bi) && kp + 4 <= 60
      modifies bo
      ensures bo[..] == ForwardLastWords(tb, bi[..], keyEnc[..], kp)
    {
      var s := tb.rs.split;
      bo[0] := ForwardLast(tb, s(bi[0]).b0, s(bi[1]).b1, s(bi[2]).b2, s(bi[3]).b3, keyEnc[kp]);
      bo[1] := ForwardLast(tb, s(bi[1]).b0, s(bi[2]).b1, s(bi[3]).b2, s(bi[0]).b3, keyEnc[kp + 1]);
      bo[2] := ForwardLast(tb, s(bi[2]).b0, s(bi[3]).b1, s(bi[0]).b2, s(bi[1]).b3, keyEnc[kp + 2]);
      bo[3] := ForwardLast(tb, s(bi[3]).b0, s(bi[0]).b1, s(bi[1]).b2, s(bi[2]).b3, keyEnc[kp + 3]);
      BlockIs(bo[..], ForwardLastWords(tb, bi[..], keyEnc[..], kp));
    }

    /** Two rounds, from one block to the other and back. */
    method ForwardTwo(b0: array<W>, b1: array<W>, r: nat, ghost start: seq<W>, ghost step: (seq<W>, nat) -> seq<W>)
      requires Blocks(b0, b1) && 4 * r + 12 <= 60 && ForwardStep(tb, keyEnc[..], step)
               && b0[..] == After(start, step, r)
      modifies b0, b1
      ensures b0[..] == After(start, step, r + 2)
    {
      ForwardRound(b1, b0, 4 * r + 4, step);
      ForwardRound(b0, b1, 4 * r + 8, step);
    }

    /** aes_encrypt up to the last round, for the ten rounds every key has. */
    method ForwardNine(b0: array<W>, b1: array<W>, r: nat, ghost start: seq<W>, ghost step: (seq<W>, nat) -> seq<W>)
      requires Blocks(b0, b1) && 4 * r + 44 <= 60 && ForwardStep(tb, keyEnc[..], step)
               && b0[..] == After(start, step, r)
      modifies b0, b1
      ensures b1[..] == After(start, step, r + 9)
    {
      ForwardTwo(b0, b1, r, start, step);
      ForwardTwo(b0, b1, r + 2, start, step);
      ForwardTwo(b0, b1, r + 4, start, step);
      ForwardTwo(b0, b1, r + 6, start, step);
      ForwardRound(b1, b0, 4 * r + 36, step);
    }

    /** All rounds of aes_encrypt but the last. */
    method ForwardMost(b0: array<W>, b1: array<W>, ghost start: seq<W>, ghost step: (seq<W>, nat) -> seq<W>)
      returns (r: nat)
      requires Blocks(b0, b1) && Lengths() && ForwardStep(tb, keyEnc[..], step) && b0[..] == start
      modifies b0, b1
      ensures r == Rounds(keyLength) && b1[..] == After(start, step, r - 1)
    {
      r := 0;
      if keyLength > 24 {
        ForwardTwo(b0, b1, r, start, step);
        r := r + 2;
      }
      if keyLength > 16 {
        ForwardTwo(b0, b1, r, start, step);
        r := r + 2;
      }
      ForwardNine(b0, b1, r, start, step);
      r := r + 10;
    }

    /** The last round. */
    method ForwardFinish(b0: array<W>, b1: array<W>, r: nat, ghost src: seq<W>, ghost step: (seq<W>, nat) -> seq<W>)
      requires Blocks(b0, b1) && |src| == 4 && 0 < r <= 14 && ForwardStep(tb, keyEnc[..], step)
      requires b1[..] == After(AddWords(tb.rs, src, keyEnc[..]), step, r - 1)
      modifies b0
      ensures ForwardDone(tb, keyEnc[..], src, r, b0[..])
    {
      ForwardLastRound(b0, b1, 4 * r);
      ForwardEnds(tb, keyEnc[..], src, step, r, b1[..], b0[..]);
    }

    /** aes_encrypt */
    method Encrypt(src: seq<W>) returns (dst: seq<W>)
      requires Valid() && Lengths() && |src| == 4
      ensures ForwardDone(tb, keyEnc[..], src, Rounds(keyLength), dst)
    {
      var b0 := Whitened(src, keyEnc);
      var b1 := new W[4](i requires 0 <= i < 4 => src[i]);
      ghost var step := ForwardSteps(tb, keyEnc[..]);
      var r := ForwardMost(b0, b1, AddWords(tb.rs, src, keyEnc[..]), step);
      ForwardFinish(b0, b1, r, src, step);
      return b0[..];
    }

    /** i_nround */
    method BackRound(bo: array<W>, bi: array<W>, kp: nat, ghost step: (seq<W>, nat) -> seq<W>)
      requires Blocks(bo, bi) && kp + 4 <= 60 && BackStep(tb, keyDec[..], step)
      modifies bo
      ensures bo[..] == step(bi[..], kp)
    {
      var s := tb.rs.split;
      bo[0] := BackWord(tb, s(bi[0]).b0, s(bi[3]).b1, s(bi[2]).b2, s(bi[1]).b3, keyDec[kp]);
      bo[1] := BackWord(tb, s(bi[1]).b0, s(bi[0]).b1, s(bi[3]).b2, s(bi[2]).b3, keyDec[kp + 1]);
      bo[2] := BackWord(tb, s(bi[2]).b0, s(bi[1]).b1, s(bi[0]).b2, s(bi[3]).b3, keyDec[kp + 2]);
      bo[3] := BackWord(tb, s(bi[3]).b0, s(bi[2]).b1, s(bi[1]).b2, s(bi[0]).b3, keyDec[kp + 3]);
      BlockIs(bo[..], BackWords(tb, bi[..], keyDec[..], kp));
      assert IsBack(tb, keyDec[..], step, bi[..], kp);
    }

    /** i_lround */
    method BackLastRound(bo: array<W>, bi: array<W>, kp: nat)
      requires Blocks(bo, bi) && kp + 4 <= 60
      modifies bo
      ensures bo[..] == BackLastWords(tb, bi[..], keyDec[..], kp)
    {
      var s := tb.rs.split;
      bo[0] := BackLast(tb, s(bi[0]).b0, s(bi[3]).b1, s(bi[2]).b2, s(bi[1]).b3, keyDec[kp]);
      bo[1] := BackLast(tb, s(bi[1]).b0, s(bi[0]).b1, s(bi[3]).b2, s(bi[2]).b3, keyDec[kp + 1]);
      bo[2] := BackLast(tb, s(bi[2]).b0, s(bi[1]).b1, s(bi[0]).b2, s(bi[3]).b3, keyDec[kp + 2]);
      bo[3] := BackLast(tb, s(bi[3]).b0, s(bi[2]).b1, s(bi[1]).b2, s(bi[0]).b3, keyDec[kp + 3]);
      BlockIs(bo[..], BackLastWords(tb, bi[..], keyDec[..], kp));
    }

    /** Two rounds, from one block to the other and back. */
    method BackTwo(b0: array<W>, b1: array<W>, r: nat, ghost start: seq<W>, ghost step: (seq<W>, nat) -> seq<W>)
      requires Blocks(b0, b1) && 4 * r + 12 <= 60 && BackStep(tb, keyDec[..], step) && b0[..] == After(start, step, r)
      modifies b0, b1
      ensures b0[..] == After(start, step, r + 2)
    {
      BackRound(b1, b0, 4 * r + 4, step);
      BackRound(b0, b1, 4 * r + 8, step);
    }

    /** aes_decrypt up to the last round, for the ten rounds every key has. */
    method BackNine(b0: array<W>, b1: array<W>, r: nat, ghost start: seq<W>, ghost step: (seq<W>, nat) -> seq<W>)
      requires Blocks(b0, b1) && 4 * r + 44 <= 60 && BackStep(tb, keyDec[..], step) && b0[..] == After(start, step, r)
      modifies b0, b1
      ensures b1[..] == After(start, step, r + 9)
    {
      BackTwo(b0, b1, r, start, step);
      BackTwo(b0, b1, r + 2, start, step);
      BackTwo(b0, b1, r + 4, start, step);
      BackTwo(b0, b1, r + 6, start, step);
      BackRound(b1, b0, 4 * r + 36, step);
    }

    /** All rounds of aes_decrypt but the last. */
    method BackMost(b0: array<W>, b1: array<W>, ghost start: seq<W>, ghost step: (seq<W>, nat) -> seq<W>)
      returns (r: nat)
      requires Blocks(b0, b1) && Lengths() && BackStep(tb, keyDec[..], step) && b0[..] == start
      modifies b0, b1
      ensures r == Rounds(keyLength) && b1[..] == After(start, step, r - 1)
    {
      r := 0;
      if keyLength > 24 {
        BackTwo(b0, b1, r, start, step);
        r := r + 2;
      }
      if keyLength > 16 {
        BackTwo(b0, b1, r, start, step);
        r := r + 2;
      }
      BackNine(b0, b1, r, start, step);
      r := r + 10;
    }

    /** The last round. */
    method BackFinish(b0: array<W>, b1: array<W>, r: nat, ghost src: seq<W>, ghost step: (seq<W>, nat) -> seq<W>)
      requires Blocks(b0, b1) && |src| == 4 && 0 < r <= 14 && BackStep(tb, keyDec[..], step)
      requires b1[..] == After(AddWords(tb.rs, src, keyDec[..]), step, r - 1)
      modifies b0
      ensures BackDone(tb, keyDec[..], src, r, b0[..])
    {
      BackLastRound(b0, b1, 4 * r);
      BackEnds(tb, keyDec[..], src, step, r, b1[..], b0[..]);
    }

    /** aes_decrypt */
    method Decrypt(src: seq<W>) returns (dst: seq<W>)
      requires Valid() && Lengths() && |src| == 4
      ensures BackDone(tb, keyDec[..], src, Rounds(keyLength), dst)
    {
      var b0 := Whitened(src, keyDec);
      var b1 := new W[4](i requires 0 <= i < 4 => src[i]);
      ghost var step := BackSteps(tb, keyDec[..]);
      var r := BackMost(b0, b1, AddWords(tb.rs, src, keyDec[..]), step);
      BackFinish(b0, b1, r, src, step);
      return b0[..];
    }

    /** With an expanded key of any of the three lengths, decrypting what was encrypted gives
        the block back. */
    lemma DecryptUndoesEncrypt(src: seq<W>, c: seq<W>, dst: seq<W>)
      requires Keyed() && Fitting(tb)
      requires ForwardDone(tb, keyEnc[..], src, Rounds(keyLength), c)
               && BackDone(tb, keyDec[..], c, Rounds(keyLength), dst)
      ensures |dst| == 4 && ColsOf(tb.rs, dst) == ColsOf(tb.rs, src)
    {
      DoneUndoes(tb, keyEnc[..], keyDec[..], src, c, dst, Rounds(keyLength));
    }
  }

  /** What `r` rounds make of a block, with the key words from `4 * r` on in round `r`. */
  function After<S>(start: S, step: (S, nat) -> S, r: nat): S {
    if r == 0 then start else step(After(start, step, r - 1), 4 * r)
  }

  function ForwardStepper<T, W>(tb: Tables<T, W>, w: seq<W>): (seq<W>, nat) -> seq<W> {
    (b: seq<W>, k: nat) => if |b| == 4 && k + 4 <= |w| then ForwardWords(tb, b, w, k) else b
  }

  ghost predicate IsForward<T, W>(tb: Tables<T, W>, w: seq<W>, step: (seq<W>, nat) -> seq<W>, b: seq<W>, k: nat) {
    |b| == 4 && k + 4 <= |w| ==> step(b, k) == ForwardWords(tb, b, w, k)
  }

  ghost predicate ForwardStep<T, W(!new)>(tb: Tables<T, W>, w: seq<W>, step: (seq<W>, nat) -> seq<W>) {
    forall b, k :: IsForward(tb, w, step, b, k)
  }

  lemma ForwardSteps<T, W(!new)>(tb: Tables<T, W>, w: seq<W>) returns (step: (seq<W>, nat) -> seq<W>)
    ensures ForwardStep(tb, w, step)
  {
    step := ForwardStepper(tb, w);
  }

  lemma {:induction false} ForwardAfter<T, W(!new)>(tb: Tables<T, W>, w: seq<W>, src: seq<W>,
      step: (seq<W>, nat) -> seq<W>, r: nat)
    requires |src| == 4 && 4 * r + 4 <= |w| && ForwardStep(tb, w, step)
    ensures After(AddWords(tb.rs, src, w), step, r) == WordsForward(tb, w, src, r)
  {
    if r > 0 {
      ForwardAfter(tb, w, src, step, r - 1);
      assert IsForward(tb, w, step, WordsForward(tb, w, src, r - 1), 4 * r);
    }
  }

  /** `b` is the block after all `rounds` rounds. */
  ghost predicate ForwardDone<T, W>(tb: Tables<T, W>, w: seq<W>, src: seq<W>, rounds: nat, b: seq<W>) {
    |src| == 4 && rounds > 0 && 4 * rounds + 4 <= |w| && b == EncryptWords(tb, w, src, rounds)
  }

  lemma ForwardReached<T, W(!new)>(tb: Tables<T, W>, w: seq<W>, src: seq<W>, step: (seq<W>, nat) -> seq<W>, r: nat,
      b: seq<W>)
    requires |src| == 4 && 4 * r + 4 <= |w| && ForwardStep(tb, w, step) && b == After(AddWords(tb.rs, src, w), step, r)
    ensures b == WordsForward(tb, w, src, r)
  {
    ForwardAfter(tb, w, src, step, r);
  }

  lemma ForwardEnds<T, W(!new)>(tb: Tables<T, W>, w: seq<W>, src: seq<W>, step: (seq<W>, nat) -> seq<W>, r: nat,
      b: seq<W>, c: seq<W>)
    requires |src| == 4 && r > 0 && 4 * r + 4 <= |w| && ForwardStep(tb, w, step)
             && b == After(AddWords(tb.rs, src, w), step, r - 1)
    requires |b| == 4 && c == ForwardLastWords(tb, b, w, 4 * r)
    ensures ForwardDone(tb, w, src, r, c)
  {
    ForwardReached(tb, w, src, step, r - 1, b);
  }

  function BackStepper<T, W>(tb: Tables<T, W>, w: seq<W>): (seq<W>, nat) -> seq<W> {
    (b: seq<W>, k: nat) => if |b| == 4 && k + 4 <= |w| then BackWords(tb, b, w, k) else b
  }

  ghost predicate IsBack<T, W>(tb: Tables<T, W>, w: seq<W>, step: (seq<W>, nat) -> seq<W>, b: seq<W>, k: nat) {
    |b| == 4 && k + 4 <= |w| ==> step(b, k) == BackWords(tb, b, w, k)
  }

  ghost predicate BackStep<T, W(!new)>(tb: Tables<T, W>, w: seq<W>, step: (seq<W>, nat) -> seq<W>) {
    forall b, k :: IsBack(tb, w, step, b, k)
  }

  lemma BackSteps<T, W(!new)>(tb: Tables<T, W>, w: seq<W>) returns (step: (seq<W>, nat) -> seq<W>)
    ensures BackStep(tb, w, step)
  {
    step := BackStepper(tb, w);
  }

  lemma {:induction false} BackAfter<T, W(!new)>(tb: Tables<T, W>, w: seq<W>, src: seq<W>,
      step: (seq<W>, nat) -> seq<W>, r: nat)
    requires |src| == 4 && 4 * r + 4 <= |w| && BackStep(tb, w, step)
    ensures After(AddWords(tb.rs, src, w), step, r) == WordsBack(tb, w, src, r)
  {
    if r > 0 {
      BackAfter(tb, w, src, step, r - 1);
      assert IsBack(tb, w, step, WordsBack(tb, w, src, r - 1), 4 * r);
    }
  }

  /** `b` is the block after all `rounds` rounds. */
  ghost predicate BackDone<T, W>(tb: Tables<T, W>, w: seq<W>, src: seq<W>, rounds: nat, b: seq<W>) {
    |src| == 4 && rounds > 0 && 4 * rounds + 4 <= |w| && b == DecryptWords(tb, w, src, rounds)
  }

  lemma BackReached<T, W(!new)>(tb: Tables<T, W>, w: seq<W>, src: seq<W>, step: (seq<W>, nat) -> seq<W>, r: nat,
      b: seq<W>)
    requires |src| == 4 && 4 * r + 4 <= |w| && BackStep(tb, w, step) && b == After(AddWords(tb.rs, src, w), step, r)
    ensures b == WordsBack(tb, w, src, r)
  {
    BackAfter(tb, w, src, step, r);
  }

  lemma BackEnds<T, W(!new)>(tb: Tables<T, W>, w: seq<W>, src: seq<W>, step: (seq<W>, nat) -> seq<W>, r: nat, b: seq<W>,
      c: seq<W>)
    requires |src| == 4 && r > 0 && 4 * r + 4 <= |w| && BackStep(tb, w, step)
             && b == After(AddWords(tb.rs, src, w), step, r - 1)
    requires |b| == 4 && c == BackLastWords(tb, b, w, 4 * r)
    ensures BackDone(tb, w, src, r, c)
  {
    BackReached(tb, w, src, step, r - 1, b);
  }

  lemma DoneUndoes<T(!new), W(!new)>(tb: Tables<T, W>, enc: seq<W>, dec: seq<W>, src: seq<W>, c: seq<W>, dst: seq<W>,
      rounds: nat)
    requires Fitting(tb) && DecWords(tb.rs, enc, dec, 4 * rounds)
    requires ForwardDone(tb, enc, src, rounds, c) && BackDone(tb, dec, c, rounds, dst)
    ensures |dst| == 4 && ColsOf(tb.rs, dst) == ColsOf(tb.rs, src)
  {
    DecryptUndoes(tb, enc, dec, src, rounds);
  }

  lemma OuterPlaces(last: nat, c: nat)
    requires last % 4 == 0 && c < 4
    ensures Place(last, c) == last + c && Place(last, last + c) == c
  {
  }

  lemma OuterWords<T, W>(rs: Registers<T, W>, enc: seq<W>, dec: seq<W>, last: nat)
    requires last % 4 == 0 && 4 <= last && last + 4 <= |enc| && last + 4 <= |dec|
    requires dec[last] == enc[0] && dec[last + 1] == enc[1] && dec[last + 2] == enc[2] && dec[last + 3] == enc[3]
    requires dec[0] == enc[last] && dec[1] == enc[last + 1] && dec[2] == enc[last + 2] && dec[3] == enc[last + 3]
    ensures forall k :: 0 <= k < 4 || last <= k < last + 4 ==> DecWord(rs, enc, dec, last, k)
  {
    forall k | 0 <= k < 4 || last <= k < last + 4 ensures DecWord(rs, enc, dec, last, k) {
      OuterPlaces(last, if k < 4 then k else k - last);
    }
  }

  lemma BlockIs<W>(a: seq<W>, b: seq<W>)
    requires |a| == 4 && |b| == 4 && a[0] == b[0] && a[1] == b[1] && a[2] == b[2] && a[3] == b[3]
    ensures a == b
  {
  }

  lemma Multiple(nk: nat, i: nat)
    requires nk == 4 || nk == 6 || nk == 8
    ensures (nk * i + nk) / nk == i + 1 && (nk * i + nk) % nk == 0
  {
  }
}
