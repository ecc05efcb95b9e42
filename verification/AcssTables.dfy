/** The three 256-entry byte tables of the ACSS cipher.
    A row of sixteen entries is one 128-bit word, first entry in the most significant byte. */
module AcssTables {

  function ByteAt(row: bv128, i: bv8): bv8 {
    ((row >> ((8 * (15 - (i & 0xf))) as bv7)) & 0xff) as bv8
  }

  // The decryption S-box, one row of sixteen entries per high nibble.
  function SboxDecRow(h: bv8): bv128 {
    match h
    case 0 => 0x33733b2663236b763e7e362b6e2e667b
    case 1 => 0xd393db0643034b96de9ed60b4e0e469b
    case 2 => 0x57175f82c787cf125a1a528fca8ac21f
    case 3 => 0xd999d10049094190d898d00148084091
    case 4 => 0x3d7d35246d2d65743c7c34256c2c6475
    case 5 => 0xdd9dd5044d0d4594dc9cd4054c0c4495
    case 6 => 0x59195180c989c11058185081c888c011
    case 7 => 0xd797df0247074f92da9ad20f4a0a429f
    case 8 => 0x53135b86c383cb165e1e568bce8ec61b
    case 9 => 0xb3f3bba6e3a3ebf6befeb6abeeaee6fb
    case 10 => 0x37773f2267276f723a7a322f6a2a627f
    case 11 => 0xb9f9b1a0e9a9e1f0b8f8b0a1e8a8e0f1
    case 12 => 0x5d1d5584cd8dc5145c1c5485cc8cc415
    case 13 => 0xbdfdb5a4edade5f4bcfcb4a5ecace4f5
    case 14 => 0x39793120692961703878302168286071
    case _ => 0xb7f7bfa2e7a7eff2bafab2afeaaae2ff
  }

  function SboxDec(x: bv8): bv8 {
    ByteAt(SboxDecRow(x >> 4), x & 0xf)
  }

  // The encryption S-box.
  function SboxEncRow(h: bv8): bv128 {
    match h
    case 0 => 0x333b7315535b13753d357d1b5d551d7b
    case 1 => 0x676f2781c7cf87216961298fc9c1892f
    case 2 => 0xe3eba305434b03a5ede5ad0b4d450dab
    case 3 => 0xeae2aa004a420aa0e8e0a802484008a2
    case 4 => 0x3e367e145e561e743c347c165c541c76
    case 5 => 0x6a622a80cac28a2068602882c8c08822
    case 6 => 0xeee6ae044e460ea4ece4ac064c440ca6
    case 7 => 0xe7efa701474f07a1e9e1a90f494109af
    case 8 => 0x636b2385c3cb83256d652d8bcdc58d2b
    case 9 => 0x373f7711575f17713931791f5951197f
    case 10 => 0xb3bbf395d3db93f5bdb5fd9bddd59dfb
    case 11 => 0xbab2fa90dad29af0b8b0f892d8d098f2
    case 12 => 0x6e662e84cec68e246c642c86ccc48c26
    case 13 => 0x3a327a105a521a703830781258501872
    case 14 => 0xbeb6fe94ded69ef4bcb4fc96dcd49cf6
    case _ => 0xb7bff791d7df97f1b9b1f99fd9d199ff
  }

  function SboxEnc(x: bv8): bv8 {
    ByteAt(SboxEncRow(x >> 4), x & 0xf)
  }

  // The bit-reversal table.
  function ReverseRow(h: bv8): bv128 {
    match h
    case 0 => 0x008040c020a060e0109050d030b070f0
    case 1 => 0x088848c828a868e8189858d838b878f8
    case 2 => 0x048444c424a464e4149454d434b474f4
    case 3 => 0x0c8c4ccc2cac6cec1c9c5cdc3cbc7cfc
    case 4 => 0x028242c222a262e2129252d232b272f2
    case 5 => 0x0a8a4aca2aaa6aea1a9a5ada3aba7afa
    case 6 => 0x068646c626a666e6169656d636b676f6
    case 7 => 0x0e8e4ece2eae6eee1e9e5ede3ebe7efe
    case 8 => 0x018141c121a161e1119151d131b171f1
    case 9 => 0x098949c929a969e9199959d939b979f9
    case 10 => 0x058545c525a565e5159555d535b575f5
    case 11 => 0x0d8d4dcd2dad6ded1d9d5ddd3dbd7dfd
    case 12 => 0x038343c323a363e3139353d333b373f3
    case 13 => 0x0b8b4bcb2bab6beb1b9b5bdb3bbb7bfb
    case 14 => 0x078747c727a767e7179757d737b777f7
    case _ => 0x0f8f4fcf2faf6fef1f9f5fdf3fbf7fff
  }

  function Reverse(x: bv8): bv8 {
    ByteAt(ReverseRow(x >> 4), x & 0xf)
  }

  lemma DecOfEncLow(x: bv8)
    requires x < 0x80
    ensures SboxDec(SboxEnc(x)) == x
  {
  }

  lemma DecOfEncHigh(x: bv8)
    requires x >= 0x80
    ensures SboxDec(SboxEnc(x)) == x
  {
  }

  lemma EncOfDecLow(x: bv8)
    requires x < 0x80
    ensures SboxEnc(SboxDec(x)) == x
  {
  }

  lemma EncOfDecHigh(x: bv8)
    requires x >= 0x80
    ensures SboxEnc(SboxDec(x)) == x
  {
  }

  // The two S-boxes are inverse permutations of the 256 byte values.
  lemma SboxesInverse(x: bv8)
    ensures SboxDec(SboxEnc(x)) == x && SboxEnc(SboxDec(x)) == x
  {
    if x < 0x80 {
      DecOfEncLow(x);
      EncOfDecLow(x);
    } else {
      DecOfEncHigh(x);
      EncOfDecHigh(x);
    }
  }

  // Bit i of the result is bit 7 - i of the argument.
  function Mirrored(x: bv8): bv8 {
    ((x & 0x01) << 7) | ((x & 0x02) << 5) | ((x & 0x04) << 3) | ((x & 0x08) << 1) |
    ((x & 0x10) >> 1) | ((x & 0x20) >> 3) | ((x & 0x40) >> 5) | ((x & 0x80) >> 7)
  }

  // The third table reverses the eight bits of a byte, so it is its own inverse.
  lemma ReverseIsMirror(x: bv8)
    ensures Reverse(x) == Mirrored(x)
  {
  }

  lemma ReverseInvolution(x: bv8)
    ensures Reverse(Reverse(x)) == x
  {
    ReverseIsMirror(x);
    ReverseIsMirror(Mirrored(x));
    assert Mirrored(Mirrored(x)) == x;
  }
}
