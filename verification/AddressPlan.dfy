/**
Choosing a pair of virtual addresses (internal/client/pair.go): 32-bit arithmetic on
an IPv4 prefix, and the ranges that count as private.
*/
module AddressPlan {
  import opened Words

  /** IPv4 addresses as 32-bit numbers. */
  type Address = nat

  const WORD: nat := 0x1_0000_0000

  /** The address is kept as given: its host bits need not be zero. */
  datatype Prefix = Prefix(address: Address, bits: nat) {
    predicate Valid() { address < WORD && bits <= 32 }
    function Size(): (n: nat)
      requires Valid()
      ensures n > 0
    { Pow2(32 - bits) }
    /** Masked().Addr() */
    function Base(): (a: Address)
      requires Valid()
      ensures a <= address
    {
      TruncatedBound(address, 32 - bits);
      address - Truncated(address, 32 - bits)
    }
    predicate Contains(a: Address)
      requires Valid()
    { Base() <= a < Base() + Size() }
  }

  const DEFAULT_NETWORK := Prefix(0x6440_0000, 10)

  /** IsPrivate of net/netip (RFC 1918), or the shared range of RFC 6598. */
  predicate PrivateAddress(a: Address) {
    || 0x0A00_0000 <= a <= 0x0AFF_FFFF || 0xAC10_0000 <= a <= 0xAC1F_FFFF
    || 0xC0A8_0000 <= a <= 0xC0A8_FFFF || 0x6440_0000 <= a <= 0x647F_FFFF
  }

  /** uint32((uint64(1) << (32 - bits)) - 1) */
  function HostMask(p: Prefix): nat
    requires p.Valid()
  {
    var shifted := ShiftLeft(64, 1, 32 - p.bits);
    if shifted == 0 then WORD - 1 else Truncated(shifted - 1, 32)
  }

  function PrefixLast(p: Prefix): Address
    requires p.Valid()
  {
    Or(p.Base(), HostMask(p))
  }

  /** The even block the pair is taken from. */
  function Block(p: Prefix, random: nat): nat
    requires p.Valid()
  {
    Or(p.Base(), AndNot(And(random, HostMask(p)), 3))
  }

  function RandomPair(p: Prefix, random: nat): (Address, Address)
    requires p.Valid()
  {
    ((Block(p, random) + 1) % WORD, (Block(p, random) + 2) % WORD)
  }

  /** The test negotiateAddresses makes on --network. */
  predicate Guard(p: Prefix)
    requires p.Valid()
  {
    8 <= p.bits <= 30 && PrivateAddress(p.address) && PrivateAddress(PrefixLast(p))
  }

  // ----- What the bit operations compute -----

  lemma HostMaskIsOnes(p: Prefix)
    requires p.Valid()
    ensures HostMask(p) == p.Size() - 1 && Within(HostMask(p), 32 - p.bits)
  {
    OnesMask(64, 32, 32 - p.bits);
  }

  lemma BaseFits(p: Prefix)
    requires p.Valid()
    ensures Aligned(p.Base(), 32 - p.bits) && p.Base() + p.Size() <= WORD
  {
    TruncatedCleared(p.address, 32 - p.bits);
    Pow2Values();
    BlockFits(p.Base(), 32 - p.bits, 32);
  }

  lemma LastIsLast(p: Prefix)
    requires p.Valid()
    ensures PrefixLast(p) == p.Base() + p.Size() - 1 < WORD
  {
    BaseFits(p);
    HostMaskIsOnes(p);
    OrIsSum(p.Base(), HostMask(p), 32 - p.bits);
  }

  lemma AtMostEight(p: Prefix)
    requires p.Valid() && p.bits >= 8
    ensures p.Size() <= 0x100_0000
  {
    Pow2Values();
    if p.bits > 8 { Pow2Grows(32 - p.bits, 24); }
  }

  /** The low bits of the random word, without the last two. */
  function Offset(p: Prefix, random: nat): nat
    requires p.Valid()
  {
    var r := Truncated(random, 32 - p.bits);
    TruncatedBound(r, 2);
    r - Truncated(r, 2)
  }

  lemma OffsetFits(p: Prefix, random: nat)
    requires p.Valid()
    ensures Within(Offset(p, random), 32 - p.bits) && Aligned(Offset(p, random), 2)
    ensures p.bits <= 30 ==> Offset(p, random) + 4 <= p.Size()
  {
    TruncatedBound(random, 32 - p.bits);
    TruncatedCleared(Truncated(random, 32 - p.bits), 2);
    if p.bits <= 30 {
      assert Pow2(2) == 4;
      hide Truncated, Pow2;
      BlockFits(Offset(p, random), 2, 32 - p.bits);
    }
  }

  lemma BlockIsSum(p: Prefix, random: nat)
    requires p.Valid()
    ensures Block(p, random) == p.Base() + Offset(p, random)
  {
    hide Or, And, AndNot, Truncated, ShiftLeft, Pow2, Aligned, Within;
    HostMaskIsOnes(p);
    BaseFits(p);
    MaskedWord(random, HostMask(p), 32 - p.bits);
    OrIsSum(p.Base(), AndNot(And(random, HostMask(p)), 3), 32 - p.bits);
  }

  lemma BlockInsidePrefix(p: Prefix, random: nat)
    requires p.Valid() && p.bits <= 30
    ensures var n := Block(p, random); Aligned(n, 2) && p.Base() <= n && n + 3 <= PrefixLast(p) < WORD
  {
    BlockIsSum(p, random);
    OffsetFits(p, random);
    LastIsLast(p);
    BaseFits(p);
    AlignedLess(p.Base(), 32 - p.bits, 2);
    AlignedSum(p.Base(), Offset(p, random), 2);
  }

  /**
  For every random word the pair lies strictly inside one /30 of the prefix, without
  wrapping: the block starts at an address whose two low bits are zero.
  */
  lemma PairInsidePrefix(p: Prefix, random: nat)
    requires p.Valid() && p.bits <= 30
    ensures var n := Block(p, random); Aligned(n, 2) && p.Base() <= n && n + 3 <= PrefixLast(p) < WORD
    ensures var (a, b) := RandomPair(p, random); a == Block(p, random) + 1 && b == a + 1
  {
    hide Or, And, AndNot, Truncated, ShiftLeft, Pow2, Aligned, Within, Block, PrefixLast;
    BlockInsidePrefix(p, random);
  }

  /** Every /30 of the prefix can be drawn. */
  lemma EveryBlockIsDrawn(p: Prefix, n: nat)
    requires p.Valid() && p.bits <= 30 && Aligned(n, 2) && p.Contains(n)
    ensures Block(p, n - p.Base()) == n
  {
    BlockIsSum(p, n - p.Base());
    BaseFits(p);
    AlignedLess(p.Base(), 32 - p.bits, 2);
    AlignedSum(p.Base(), n - p.Base(), 2);
    TruncatedSmall(n - p.Base(), 32 - p.bits);
  }

  // ----- When proposals are private -----

  /** Between two private addresses less than a /8 apart everything is private. */
  lemma PrivateBetween(lo: Address, a: Address, hi: Address)
    requires PrivateAddress(lo) && PrivateAddress(hi) && lo <= a <= hi && hi - lo < 0x100_0000
    ensures PrivateAddress(a)
  {}

  predicate ProposalPrivate(p: Prefix, random: nat)
    requires p.Valid()
  {
    PrivateAddress(RandomPair(p, random).0) && PrivateAddress(RandomPair(p, random).1)
  }

  lemma PrivateBaseSuffices(p: Prefix, random: nat)
    requires p.Valid() && Guard(p) && PrivateAddress(p.Base())
    ensures ProposalPrivate(p, random)
  {
    LastIsLast(p);
    AtMostEight(p);
    PairInsidePrefix(p, random);
    PrivateBetween(p.Base(), RandomPair(p, random).0, PrefixLast(p));
    PrivateBetween(p.Base(), RandomPair(p, random).1, PrefixLast(p));
  }

  /** Private ranges begin at even addresses, so the first block shows whether the base is private. */
  lemma FirstBlockTells(p: Prefix)
    requires p.Valid() && p.bits <= 30 && PrivateAddress(RandomPair(p, 0).0)
    ensures PrivateAddress(p.Base())
  {
    BlockIsSum(p, 0);
    TruncatedBound(0, 32 - p.bits);
    BaseFits(p);
    AlignedLess(p.Base(), 32 - p.bits, 1);
    PairInsidePrefix(p, 0);
    NextIsPrivate(p.Base());
  }

  lemma NextIsPrivate(a: Address)
    requires a % 2 == 0 && PrivateAddress(a + 1)
    ensures PrivateAddress(a)
  {}

  /**
  The guard looks at the address as given.  Every proposal is private exactly if
  the first address of the prefix is, too.
  */
  lemma ProposalsPrivateIff(p: Prefix)
    requires p.Valid() && Guard(p)
    ensures (forall random: nat :: random < WORD ==> ProposalPrivate(p, random)) <==> PrivateAddress(p.Base())
  {
    if PrivateAddress(p.Base()) {
      forall random: nat | random < WORD ensures ProposalPrivate(p, random) {
        PrivateBaseSuffices(p, random);
      }
    } else if ProposalPrivate(p, 0) {
      FirstBlockTells(p);
    }
  }

  /** A masked prefix that passes the guard lies in a private range as a whole. */
  lemma MaskedPrefixIsPrivate(p: Prefix, a: Address)
    requires p.Valid() && Guard(p) && p.address == p.Base() && p.Contains(a)
    ensures PrivateAddress(a)
  {
    LastIsLast(p);
    AtMostEight(p);
    PrivateBetween(p.Base(), a, PrefixLast(p));
  }

  /** 100.64.0.0/9 passes the guard, and 100.0.0.1 may be proposed. */
  lemma GuardedButPublic() returns (p: Prefix)
    ensures p == Prefix(0x6440_0000, 9) && Guard(p) && RandomPair(p, 0).0 == 0x6400_0001 && !ProposalPrivate(p, 0)
  {
    p := Prefix(0x6440_0000, 9);
    Pow2Values();
    MultipleTruncated(200, 23);
    TruncatedSum(200 * 0x80_0000, 0x40_0000, 23);
    LastIsLast(p);
    BlockIsSum(p, 0);
    TruncatedBound(0, 23);
    PairInsidePrefix(p, 0);
  }

  lemma DefaultNetworkIsFine()
    ensures Guard(DEFAULT_NETWORK) && DEFAULT_NETWORK.Base() == DEFAULT_NETWORK.address
  {
    Pow2Values();
    MultipleTruncated(401, 22);
    LastIsLast(DEFAULT_NETWORK);
  }
}
