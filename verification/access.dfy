/** The security-access flags enum: a 32-bit signed bit mask of
    capabilities, tested the way `Enum.HasFlag` tests it. */
module Access {

  /** The bit pattern of an `eExpressoSecurityAccess` value (an `int`). */
  type Mask = bv32

  const None: Mask := 0x00
  const AllowMathMethods: Mask := 0x01
  const AllowMemberAccess: Mask := 0x02
  /** Only effective together with AllowMemberAccess. */
  const AllowMemberInvokation: Mask := 0x04
  /** "Sets all flags": the 31 non-sign bits. */
  const AllowAll: Mask := 0x7fffffff

  /** `m.HasFlag(flag)`: every bit of `flag` is present in `m`. */
  predicate HasFlag(m: Mask, flag: Mask) {
    m & flag == flag
  }

  /** Every value has the flag None, and None has no other flag. */
  lemma NoneIsEmpty(m: Mask)
    ensures HasFlag(m, None)
    ensures HasFlag(None, m) <==> m == None
  {
  }

  /** The three capabilities are distinct single bits, and together they
      make 0x07. */
  lemma NamedFlagsAreSingleBits()
    ensures AllowMathMethods == 1 << 0 && AllowMemberAccess == 1 << 1 && AllowMemberInvokation == 1 << 2
    ensures AllowMathMethods & AllowMemberAccess == 0
    ensures AllowMathMethods & AllowMemberInvokation == 0
    ensures AllowMemberAccess & AllowMemberInvokation == 0
    ensures AllowMathMethods | AllowMemberAccess | AllowMemberInvokation == 0x07
  {
  }

  /** AllowAll contains every named flag, and the union of the named flags
      is strictly contained in AllowAll: setting them all is not "allow all". */
  lemma AllowAllStrictlyContainsNamedFlags()
    ensures HasFlag(AllowAll, AllowMathMethods)
    ensures HasFlag(AllowAll, AllowMemberAccess)
    ensures HasFlag(AllowAll, AllowMemberInvokation)
    ensures HasFlag(AllowAll, AllowMathMethods | AllowMemberAccess | AllowMemberInvokation)
    ensures !HasFlag(AllowMathMethods | AllowMemberAccess | AllowMemberInvokation, AllowAll)
    ensures AllowMathMethods | AllowMemberAccess | AllowMemberInvokation != AllowAll
  {
  }

  /** Only two bit patterns carry the AllowAll flag: AllowAll itself and the
      value with the sign bit set as well (-1). */
  lemma AllowAllValues(m: Mask)
    ensures HasFlag(m, AllowAll) <==> m == 0x7fffffff || m == 0xffffffff
  {
  }

  /** Bit number `i` (0 = least significant) is present in `m`. */
  predicate BitSet(m: Mask, i: bv32)
    requires i < 32
  {
    m & (1 << i) != 0
  }

  /** A mask carries AllowAll exactly when each of its 31 low bits is set:
      a mask missing any one of them is walked. */
  lemma AllowAllIsEveryLowBit(m: Mask)
    ensures HasFlag(m, AllowAll) <==> forall i: bv32 :: i < 31 ==> BitSet(m, i)
  {
    if forall i: bv32 :: i < 31 ==> BitSet(m, i) {
      assert BitSet(m, 0) && BitSet(m, 1) && BitSet(m, 2) && BitSet(m, 3) && BitSet(m, 4);
      assert BitSet(m, 5) && BitSet(m, 6) && BitSet(m, 7) && BitSet(m, 8) && BitSet(m, 9);
      assert BitSet(m, 10) && BitSet(m, 11) && BitSet(m, 12) && BitSet(m, 13) && BitSet(m, 14);
      assert BitSet(m, 15) && BitSet(m, 16) && BitSet(m, 17) && BitSet(m, 18) && BitSet(m, 19);
      assert BitSet(m, 20) && BitSet(m, 21) && BitSet(m, 22) && BitSet(m, 23) && BitSet(m, 24);
      assert BitSet(m, 25) && BitSet(m, 26) && BitSet(m, 27) && BitSet(m, 28) && BitSet(m, 29);
      assert BitSet(m, 30);
    }
  }
}
