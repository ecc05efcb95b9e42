/** The two shift registers of the ACSS cipher: the byte step the cipher uses and the
    bit-serial registers it stands for. A register is its bits, least significant first. */
module AcssRegisters {

  type Word = seq<bool>

  // Shifts and exclusive or at a fixed width; what leaves the width is lost, as under a mask.
  function Shr(w: Word, n: nat): (r: Word)
    ensures |r| == |w|
  {
    seq(|w|, i requires 0 <= i < |w| => i + n < |w| && w[i + n])
  }

  function Shl(w: Word, n: nat): (r: Word)
    ensures |r| == |w|
  {
    seq(|w|, i requires 0 <= i < |w| => n <= i && w[i - n])
  }

  function Xor(a: Word, b: Word): (r: Word)
    requires |a| == |b|
    ensures |r| == |a|
  {
    seq(|a|, i requires 0 <= i < |a| => a[i] != b[i])
  }

  function Zero(width: nat): (r: Word)
    ensures |r| == width
  {
    seq(width, _ => false)
  }

  // One byte step of each register, in the word-parallel form.
  function Step17(r: Word): (s: Word)
    requires |r| == 17
    ensures |s| == 17
  {
    var t := Xor(r, Shr(r, 14));
    Xor(Xor(Xor(Shr(r, 8), Shl(t, 9)), Shl(t, 12)), Shl(t, 15))
  }

  function Step25(r: Word): (s: Word)
    requires |r| == 25
    ensures |s| == 25
  {
    var t := Xor(Xor(Xor(r, Shr(r, 3)), Shr(r, 4)), Shr(r, 12));
    Xor(Shr(r, 8), Shl(t, 17))
  }

  // The bit-serial registers: shift right, feed the parity of the taps in at the top.
  function Bit17(r: Word): (s: Word)
    requires |r| == 17
    ensures |s| == 17
  {
    r[1..] + [r[0] != r[14]]
  }

  function Bit25(r: Word): (s: Word)
    requires |r| == 25
    ensures |s| == 25
  {
    r[1..] + [((r[0] != r[3]) != r[4]) != r[12]]
  }

  // Their inverses: shift left, recover the bit that fell out at the bottom.
  function Unbit17(r: Word): (s: Word)
    requires |r| == 17
    ensures |s| == 17
  {
    [r[16] != r[13]] + r[..16]
  }

  function Unbit25(r: Word): (s: Word)
    requires |r| == 25
    ensures |s| == 25
  {
    [((r[24] != r[2]) != r[3]) != r[11]] + r[..24]
  }

  // n bit steps, and n steps back.
  function Shift17(n: nat, r: Word): (s: Word)
    requires |r| == 17
    ensures |s| == 17
  {
    if n == 0 then r else Bit17(Shift17(n - 1, r))
  }

  function Shift25(n: nat, r: Word): (s: Word)
    requires |r| == 25
    ensures |s| == 25
  {
    if n == 0 then r else Bit25(Shift25(n - 1, r))
  }

  function Unshift17(n: nat, r: Word): (s: Word)
    requires |r| == 17
    ensures |s| == 17
  {
    if n == 0 then r else Unshift17(n - 1, Unbit17(r))
  }

  function Unshift25(n: nat, r: Word): (s: Word)
    requires |r| == 25
    ensures |s| == 25
  {
    if n == 0 then r else Unshift25(n - 1, Unbit25(r))
  }

  // The short register after k bit steps: from the fourth step on, fed-back bits reach the tap.
  function Fed17(r: Word, k: nat): bool
    requires |r| == 17 && k < 9
  {
    if k < 3 then r[k] != r[k + 14] else r[k] != Fed17(r, k - 3)
  }

  lemma {:induction false} After17(k: nat, r: Word)
    requires |r| == 17 && k <= 9
    ensures forall i :: 0 <= i < 17 ==> Shift17(k, r)[i] == if i + k < 17 then r[i + k] else Fed17(r, i + k - 17)
  {
    if k > 0 {
      After17(k - 1, r);
    }
  }

  // The long register after k bit steps: the taps never reach a fed-back bit.
  function Fed25(r: Word, k: nat): bool
    requires |r| == 25 && k < 13
  {
    ((r[k] != r[k + 3]) != r[k + 4]) != r[k + 12]
  }

  lemma {:induction false} After25(k: nat, r: Word)
    requires |r| == 25 && k <= 13
    ensures forall i :: 0 <= i < 25 ==> Shift25(k, r)[i] == if i + k < 25 then r[i + k] else Fed25(r, i + k - 25)
  {
    if k > 0 {
      After25(k - 1, r);
    }
  }

  // The bits of a byte step, read off its shifts.
  function Tap17(r: Word, j: nat): bool
    requires |r| == 17 && j < 17
  {
    r[j] != (j + 14 < 17 && r[j + 14])
  }

  lemma Step17At(r: Word, i: nat)
    requires |r| == 17 && i < 17
    ensures Step17(r)[i] == ((((i + 8 < 17 && r[i + 8]) != (9 <= i && Tap17(r, i - 9)))
                              != (12 <= i && Tap17(r, i - 12))) != (15 <= i && Tap17(r, i - 15)))
  {
  }

  lemma Step25At(r: Word, i: nat)
    requires |r| == 25 && i < 25
    ensures Step25(r)[i] == if i < 17 then r[i + 8] else Fed25(r, i - 17)
  {
  }

  lemma Fed17At(r: Word, k: nat)
    requires |r| == 17 && k < 8
    ensures Fed17(r, k) == ((Tap17(r, k) != (3 <= k && Tap17(r, k - 3))) != (6 <= k && Tap17(r, k - 6)))
  {
    if k >= 6 {
      assert Fed17(r, k) == (r[k] != (r[k - 3] != Fed17(r, k - 6)));
    }
  }

  // The byte step is eight bit-serial steps.
  lemma Step17IsEightBits(r: Word)
    requires |r| == 17
    ensures Step17(r) == Shift17(8, r)
  {
    hide Step17, Shift17, Fed17, Tap17;
    After17(8, r);
    forall i: nat | i < 17 ensures Step17(r)[i] == Shift17(8, r)[i] {
      Step17At(r, i);
      if i >= 9 {
        Fed17At(r, i - 9);
      }
    }
  }

  lemma Step25IsEightBits(r: Word)
    requires |r| == 25
    ensures Step25(r) == Shift25(8, r)
  {
    hide Step25, Shift25, Fed25;
    After25(8, r);
    forall i: nat | i < 25 ensures Step25(r)[i] == Shift25(8, r)[i] {
      Step25At(r, i);
    }
  }

  // Every bit step is a bijection of the register's values.
  lemma Bit17Bijective(r: Word)
    requires |r| == 17
    ensures Unbit17(Bit17(r)) == r && Bit17(Unbit17(r)) == r
  {
  }

  lemma Bit25Bijective(r: Word)
    requires |r| == 25
    ensures Unbit25(Bit25(r)) == r && Bit25(Unbit25(r)) == r
  {
  }

  lemma {:induction false} ShiftsUndone17(n: nat, r: Word)
    requires |r| == 17
    ensures Unshift17(n, Shift17(n, r)) == r && Shift17(n, Unshift17(n, r)) == r
    decreases n
  {
    hide Bit17, Unbit17;
    if n > 0 {
      Bit17Bijective(Shift17(n - 1, r));
      Bit17Bijective(r);
      ShiftsUndone17(n - 1, r);
      ShiftsUndone17(n - 1, Unbit17(r));
    }
  }

  lemma {:induction false} ShiftsUndone25(n: nat, r: Word)
    requires |r| == 25
    ensures Unshift25(n, Shift25(n, r)) == r && Shift25(n, Unshift25(n, r)) == r
    decreases n
  {
    hide Bit25, Unbit25;
    if n > 0 {
      Bit25Bijective(Shift25(n - 1, r));
      Bit25Bijective(r);
      ShiftsUndone25(n - 1, r);
      ShiftsUndone25(n - 1, Unbit25(r));
    }
  }

  // So is every byte step.
  lemma Step17Bijective(r: Word)
    requires |r| == 17
    ensures Unshift17(8, Step17(r)) == r && Step17(Unshift17(8, r)) == r
  {
    hide Step17, Shift17, Unshift17;
    ShiftsUndone17(8, r);
    Step17IsEightBits(r);
    Step17IsEightBits(Unshift17(8, r));
  }

  lemma Step25Bijective(r: Word)
    requires |r| == 25
    ensures Unshift25(8, Step25(r)) == r && Step25(Unshift25(8, r)) == r
  {
    hide Step25, Shift25, Unshift25;
    ShiftsUndone25(8, r);
    Step25IsEightBits(r);
    Step25IsEightBits(Unshift25(8, r));
  }

  // A bijection that fixes zero leads nothing else to zero.
  lemma StepsNonZero(r17: Word, r25: Word)
    requires |r17| == 17 && |r25| == 25
    ensures r17 != Zero(17) ==> Step17(r17) != Zero(17)
    ensures r25 != Zero(25) ==> Step25(r25) != Zero(25)
  {
    ZeroFixed();
    hide Step17, Step25, Unshift17, Unshift25;
    Step17Bijective(r17);
    Step17Bijective(Zero(17));
    Step25Bijective(r25);
    Step25Bijective(Zero(25));
  }

  lemma ZeroFixed()
    ensures Step17(Zero(17)) == Zero(17) && Step25(Zero(25)) == Zero(25)
  {
  }
}
