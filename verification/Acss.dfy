/** The ACSS stream cipher: two linear feedback shift registers advanced a byte at a time,
    summed with carry, and combined with the data through an S-box. */
module Acss {
  import opened AcssTables
  import opened AcssRegisters

  const AUTHENTICATE := 0
  const SESSIONKEY := 1
  const TITLEKEY := 2
  const DATA := 3

  predicate KnownMode(mode: int) {
    AUTHENTICATE <= mode <= DATA
  }

  // ---------------------------------------------------------------------------
  // The keystream
  // ---------------------------------------------------------------------------

  datatype Regs = Regs(r17: Word, r25: Word, sum: nat)

  predicate Shaped(k: Regs) {
    |k.r17| == 17 && |k.r25| == 25
  }

  // Bits as a number.
  function Value(w: Word): (v: nat) {
    if w == [] then 0 else (if w[0] then 1 else 0) + 2 * Value(w[1..])
  }

  function Octet(w: Word): (v: nat)
    requires |w| == 8
    ensures v < 256
  {
    OctetBound(w);
    Value(w)
  }

  lemma OctetBound(w: Word)
    requires |w| == 8
    ensures Value(w) < 256
  {
    ValueBound(w);
    assert Pow2(8) == 16 * Pow2(4);
  }

  function Pow2(n: nat): nat {
    if n == 0 then 1 else 2 * Pow2(n - 1)
  }

  lemma {:induction false} ValueBound(w: Word)
    ensures Value(w) < Pow2(|w|)
  {
    if w != [] {
      ValueBound(w[1..]);
    }
  }

  // The register bytes that enter the addition; some modes complement one of them.
  function Addend17(mode: int, r: Word): (v: nat)
    requires |r| == 17
    ensures v < 256
  {
    var b := Octet(r[9..]);
    if mode == AUTHENTICATE || mode == DATA then 255 - b else b
  }

  function Addend25(mode: int, r: Word): (v: nat)
    requires |r| == 25
    ensures v < 256
  {
    var b := Octet(r[17..]);
    if mode == TITLEKEY then 255 - b else b
  }

  function Advance(mode: int, k: Regs): (k1: Regs)
    requires Shaped(k)
    ensures Shaped(k1)
  {
    var r17, r25 := Step17(k.r17), Step25(k.r25);
    Regs(r17, r25, Addend17(mode, r17) + Addend25(mode, r25) + k.sum / 256)
  }

  function Digit(k: Regs): (d: nat)
    ensures d < 256
  {
    k.sum % 256
  }

  function AsByte(d: nat): bv8
    requires d < 256
  {
    d as bv8
  }

  function StreamByte(k: Regs): bv8 {
    AsByte(Digit(k))
  }

  function CryptByte(enc: bool, key: bv8, b: bv8): bv8 {
    if enc then SboxEnc(b ^ key) else SboxDec(b) ^ key
  }

  function Crypt(mode: int, enc: bool, k: Regs, input: seq<bv8>): (r: (Regs, seq<bv8>))
    requires Shaped(k)
    ensures |r.1| == |input| && Shaped(r.0)
    decreases |input|
  {
    if input == [] then (k, [])
    else
      var k1 := Advance(mode, k);
      var (k2, rest) := Crypt(mode, enc, k1, input[1..]);
      (k2, [CryptByte(enc, StreamByte(k1), input[0])] + rest)
  }

  // The registers after n bytes; no data influences them.
  function After(mode: int, k: Regs, n: nat): (r: Regs)
    requires Shaped(k)
    ensures Shaped(r)
    decreases n
  {
    if n == 0 then k else After(mode, Advance(mode, k), n - 1)
  }

  lemma {:induction false} CryptRegs(mode: int, enc: bool, k: Regs, input: seq<bv8>)
    requires Shaped(k)
    ensures Crypt(mode, enc, k, input).0 == After(mode, k, |input|)
    decreases |input|
  {
    hide Advance, StreamByte, CryptByte;
    if input != [] {
      CryptRegs(mode, enc, Advance(mode, k), input[1..]);
    }
  }

  lemma {:induction false} CryptSplit(mode: int, enc: bool, k: Regs, a: seq<bv8>, b: seq<bv8>)
    requires Shaped(k)
    ensures var ra := Crypt(mode, enc, k, a);
            var rb := Crypt(mode, enc, ra.0, b);
            Crypt(mode, enc, k, a + b) == (rb.0, ra.1 + rb.1)
    decreases |a|
  {
    hide Advance, StreamByte, CryptByte;
    if a == [] {
      assert a + b == b;
      assert [] + Crypt(mode, enc, k, b).1 == Crypt(mode, enc, k, b).1;
    } else {
      CryptSplit(mode, enc, Advance(mode, k), a[1..], b);
      assert (a + b)[1..] == a[1..] + b;
      var k1 := Advance(mode, k);
      var c := [CryptByte(enc, StreamByte(k1), a[0])];
      var ra := Crypt(mode, enc, k1, a[1..]);
      var rb := Crypt(mode, enc, ra.0, b);
      assert c + (ra.1 + rb.1) == (c + ra.1) + rb.1;
    }
  }

  // Successive calls on the same key.
  function CryptCalls(mode: int, enc: bool, k: Regs, calls: seq<seq<bv8>>): (r: (Regs, seq<bv8>))
    requires Shaped(k)
    ensures Shaped(r.0)
    decreases |calls|
  {
    if calls == [] then (k, [])
    else
      var (k1, out) := Crypt(mode, enc, k, calls[0]);
      var (k2, rest) := CryptCalls(mode, enc, k1, calls[1..]);
      (k2, out + rest)
  }

  function Joined(calls: seq<seq<bv8>>): seq<bv8> {
    if calls == [] then [] else calls[0] + Joined(calls[1..])
  }

  lemma {:induction false} CallsAreOneCall(mode: int, enc: bool, k: Regs, calls: seq<seq<bv8>>)
    requires Shaped(k)
    ensures CryptCalls(mode, enc, k, calls) == Crypt(mode, enc, k, Joined(calls))
    decreases |calls|
  {
    hide Advance, StreamByte, CryptByte;
    if calls != [] {
      CryptSplit(mode, enc, k, calls[0], Joined(calls[1..]));
      CallsAreOneCall(mode, enc, Crypt(mode, enc, k, calls[0]).0, calls[1..]);
    }
  }

  lemma {:induction false} DecryptEncrypt(mode: int, k: Regs, plain: seq<bv8>)
    requires Shaped(k)
    ensures Crypt(mode, false, k, Crypt(mode, true, k, plain).1) == (After(mode, k, |plain|), plain)
    decreases |plain|
  {
    hide Advance, StreamByte, CryptByte;
    if plain != [] {
      var k1 := Advance(mode, k);
      CryptByteUndone(StreamByte(k1), plain[0]);
      DecryptEncrypt(mode, k1, plain[1..]);
      var cipher := Crypt(mode, true, k, plain).1;
      assert cipher[1..] == Crypt(mode, true, k1, plain[1..]).1;
      assert plain == [plain[0]] + plain[1..];
    }
  }

  lemma CryptByteUndone(key: bv8, b: bv8)
    ensures CryptByte(false, key, CryptByte(true, key, b)) == b
  {
    SboxesInverse(b ^ key);
    hide SboxEnc, SboxDec;
    XorUndone(b, key);
  }

  lemma XorUndone(a: bv8, b: bv8)
    ensures (a ^ b) ^ b == a
  {
  }

  // Decryption undoes encryption however the two sides cut the stream into calls.
  lemma RoundTrip(mode: int, k: Regs, sent: seq<seq<bv8>>, received: seq<seq<bv8>>)
    requires Shaped(k)
    requires Joined(received) == CryptCalls(mode, true, k, sent).1
    ensures CryptCalls(mode, false, k, received) == (CryptCalls(mode, true, k, sent).0, Joined(sent))
  {
    hide Crypt, CryptCalls, After;
    CallsAreOneCall(mode, true, k, sent);
    CallsAreOneCall(mode, false, k, received);
    CryptRegs(mode, true, k, Joined(sent));
    DecryptEncrypt(mode, k, Joined(sent));
  }

  // ---------------------------------------------------------------------------
  // The keystream is one long addition
  // ---------------------------------------------------------------------------

  // The n keystream bytes and the two addend streams, first byte first.
  function KeyStream(mode: int, k: Regs, n: nat): (s: seq<nat>)
    requires Shaped(k)
    ensures |s| == n && forall i :: 0 <= i < n ==> s[i] < 256
    decreases n
  {
    if n == 0 then [] else
      var k1 := Advance(mode, k);
      [Digit(k1)] + KeyStream(mode, k1, n - 1)
  }

  function Stream17(mode: int, r: Word, n: nat): seq<nat>
    requires |r| == 17
    decreases n
  {
    if n == 0 then [] else [Addend17(mode, Step17(r))] + Stream17(mode, Step17(r), n - 1)
  }

  function Stream25(mode: int, r: Word, n: nat): seq<nat>
    requires |r| == 25
    decreases n
  {
    if n == 0 then [] else [Addend25(mode, Step25(r))] + Stream25(mode, Step25(r), n - 1)
  }

  // A string of base-256 digits as a number, least significant first.
  function Number(s: seq<nat>): nat {
    if s == [] then 0 else s[0] + 256 * Number(s[1..])
  }

  function Pow256(n: nat): nat {
    if n == 0 then 1 else 256 * Pow256(n - 1)
  }

  // One digit of the addition.
  lemma AddDigit(mode: int, k: Regs)
    requires Shaped(k)
    requires k.sum < 512
    ensures var k1 := Advance(mode, k);
            k1.sum < 512 && k1.r17 == Step17(k.r17) && k1.r25 == Step25(k.r25) &&
            Digit(k1) + 256 * (k1.sum / 256)
            == Addend17(mode, k1.r17) + Addend25(mode, k1.r25) + k.sum / 256
  {
    hide Addend17, Addend25, Step17, Step25;
  }

  lemma {:induction false} LongAddition(mode: int, k: Regs, n: nat)
    requires Shaped(k)
    requires k.sum < 512
    ensures After(mode, k, n).sum < 512
    ensures Number(KeyStream(mode, k, n)) + Pow256(n) * (After(mode, k, n).sum / 256)
         == Number(Stream17(mode, k.r17, n)) + Number(Stream25(mode, k.r25, n)) + k.sum / 256
    decreases n
  {
    hide Advance, Digit, Addend17, Addend25, Step17, Step25;
    if n > 0 {
      var k1 := Advance(mode, k);
      var carry := After(mode, k, n).sum / 256;
      AddDigit(mode, k);
      LongAddition(mode, k1, n - 1);
      NumberCons(Digit(k1), KeyStream(mode, k1, n - 1));
      NumberCons(Addend17(mode, k1.r17), Stream17(mode, k1.r17, n - 1));
      NumberCons(Addend25(mode, k1.r25), Stream25(mode, k1.r25, n - 1));
      Carried(carry, n);
    }
  }

  lemma NumberCons(b: nat, s: seq<nat>)
    ensures Number([b] + s) == b + 256 * Number(s)
  {
    assert ([b] + s)[1..] == s;
  }

  lemma Carried(c: nat, n: nat)
    requires n > 0
    ensures Pow256(n) * c == 256 * (Pow256(n - 1) * c)
  {
  }

  // Enciphering XORs with those digits in front of the S-box.
  lemma {:induction false} CryptUsesKeyStream(mode: int, enc: bool, k: Regs, input: seq<bv8>, i: nat)
    requires Shaped(k)
    requires i < |input|
    ensures Crypt(mode, enc, k, input).1[i] == CryptByte(enc, AsByte(KeyStream(mode, k, |input|)[i]), input[i])
    decreases |input|
  {
    var k1 := Advance(mode, k);
    hide Advance, CryptByte, AsByte, Digit;
    if |input| > 1 {
      CryptUsesKeyStream(mode, enc, k1, input[1..], if i == 0 then 0 else i - 1);
    }
  }

  // ---------------------------------------------------------------------------
  // Seeding
  // ---------------------------------------------------------------------------

  const KEYSIZE := 5

  // The bits of a byte, least significant first, and back.
  function BitsOf(b: bv8): (w: Word)
    ensures |w| == 8
  {
    [b & 0x01 != 0, b & 0x02 != 0, b & 0x04 != 0, b & 0x08 != 0,
     b & 0x10 != 0, b & 0x20 != 0, b & 0x40 != 0, b & 0x80 != 0]
  }

  function ByteOf(w: Word): bv8
    requires |w| == 8
  {
    (if w[0] then 0x01 else 0) | (if w[1] then 0x02 else 0) | (if w[2] then 0x04 else 0) | (if w[3] then 0x08 else 0)
    | (if w[4] then 0x10 else 0) | (if w[5] then 0x20 else 0) | (if w[6] then 0x40 else 0) | (if w[7] then 0x80 else 0)
  }

  lemma ByteOfBits(b: bv8)
    ensures ByteOf(BitsOf(b)) == b
  {
  }

  lemma BitsOfByte(w: Word)
    requires |w| == 8
    ensures BitsOf(ByteOf(w)) == w
  {
  }

  function Seed17(seed: seq<bv8>): (r: Word)
    requires |seed| == KEYSIZE
    ensures |r| == 17
  {
    BitsOf(seed[1]) + [true] + BitsOf(seed[0])
  }

  function Seed25(seed: seq<bv8>): (r: Word)
    requires |seed| == KEYSIZE
    ensures |r| == 25
  {
    BitsOf(seed[4]) + BitsOf(seed[3]) + BitsOf(seed[2])[..5] + [true] + BitsOf(seed[2])[5..]
  }

  function SeedByte(data: bv8, subkey: bv8, available: bool): bv8 {
    if available then Reverse(data ^ subkey) else Reverse(data)
  }

  function Seeds(data: seq<bv8>, subkey: seq<bv8>, available: bool): (s: seq<bv8>)
    requires |data| == |subkey|
    ensures |s| == |data|
  {
    seq(|data|, i requires 0 <= i < |data| => SeedByte(data[i], subkey[i], available))
  }

  function Seeded(seed: seq<bv8>): (k: Regs)
    requires |seed| == KEYSIZE
    ensures Shaped(k)
  {
    Regs(Seed17(seed), Seed25(seed), 0)
  }

  predicate Live(k: Regs) {
    Shaped(k) && k.r17 != Zero(17) && k.r25 != Zero(25) && k.sum < 512
  }

  // Seeding reaches exactly the registers that carry the two injected ones, each from one seed.
  function Unseed(k: Regs): (seed: seq<bv8>)
    requires Shaped(k)
    ensures |seed| == KEYSIZE
  {
    [ByteOf(k.r17[9..]), ByteOf(k.r17[..8]), ByteOf(k.r25[16..21] + k.r25[22..]), ByteOf(k.r25[8..16]),
     ByteOf(k.r25[..8])]
  }

  lemma SeedBijective(seed: seq<bv8>, k: Regs)
    requires |seed| == KEYSIZE && Shaped(k)
    ensures Live(Seeded(seed)) && Unseed(Seeded(seed)) == seed
    ensures k.sum == 0 && k.r17[8] && k.r25[21] ==> Seeded(Unseed(k)) == k
  {
    SeedThenUnseed(seed);
    UnseedThenSeed(k);
  }

  lemma SeedThenUnseed(seed: seq<bv8>)
    requires |seed| == KEYSIZE
    ensures Live(Seeded(seed)) && Unseed(Seeded(seed)) == seed
  {
    hide BitsOf, ByteOf;
    var r := Seeded(seed);
    assert r.r17[8] && r.r25[21];
    assert r.r17[9..] == BitsOf(seed[0]) && r.r17[..8] == BitsOf(seed[1]);
    assert r.r25[16..21] + r.r25[22..] == BitsOf(seed[2]);
    assert r.r25[8..16] == BitsOf(seed[3]) && r.r25[..8] == BitsOf(seed[4]);
    hide Seeded;
    ByteOfBits(seed[0]);
    ByteOfBits(seed[1]);
    ByteOfBits(seed[2]);
    ByteOfBits(seed[3]);
    ByteOfBits(seed[4]);
  }

  lemma UnseedThenSeed(k: Regs)
    requires Shaped(k)
    ensures k.sum == 0 && k.r17[8] && k.r25[21] ==> Seeded(Unseed(k)) == k
  {
    hide BitsOf, ByteOf;
    BitsOfByte(k.r17[9..]);
    BitsOfByte(k.r17[..8]);
    BitsOfByte(k.r25[16..21] + k.r25[22..]);
    BitsOfByte(k.r25[8..16]);
    BitsOfByte(k.r25[..8]);
    if k.r17[8] && k.r25[21] {
      Parts17(k.r17);
      Parts25(k.r25);
    }
  }

  lemma Parts17(r: seq<bool>)
    requires |r| == 17 && r[8]
    ensures r == r[..8] + [true] + r[9..]
  {
  }

  lemma Parts25(r: seq<bool>)
    requires |r| == 25 && r[21]
    ensures var mid := r[16..21] + r[22..];
            mid[..5] == r[16..21] && mid[5..] == r[22..] && r == r[..8] + r[8..16] + mid[..5] + [true] + mid[5..]
  {
  }

  // Different raw keys give different seeds, hence different registers.
  lemma SeedsInjective(d1: seq<bv8>, d2: seq<bv8>, subkey: seq<bv8>, available: bool)
    requires |d1| == |d2| == |subkey| == KEYSIZE
    requires Seeded(Seeds(d1, subkey, available)) == Seeded(Seeds(d2, subkey, available))
    ensures d1 == d2
  {
    hide Seeded, SeedByte, Unseed, Live;
    var s1, s2 := Seeds(d1, subkey, available), Seeds(d2, subkey, available);
    SeedBijective(s1, Seeded(s1));
    SeedBijective(s2, Seeded(s2));
    forall i | 0 <= i < KEYSIZE ensures d1[i] == d2[i] {
      assert s1[i] == s2[i];
      SeedByteInjective(d1[i], d2[i], subkey[i], available);
    }
  }

  lemma SeedByteInjective(a: bv8, b: bv8, subkey: bv8, available: bool)
    requires SeedByte(a, subkey, available) == SeedByte(b, subkey, available)
    ensures a == b
  {
    ReverseInvolution(if available then a ^ subkey else a);
    ReverseInvolution(if available then b ^ subkey else b);
    hide Reverse;
    XorCancels(a, b, subkey);
  }

  lemma XorCancels(a: bv8, b: bv8, c: bv8)
    ensures a ^ c == b ^ c ==> a == b
  {
  }

  // No register of a seeded key ever reaches the all-zero state.
  lemma {:induction false} NeverZero(mode: int, k: Regs, n: nat)
    requires Live(k)
    ensures Live(After(mode, k, n))
    decreases n
  {
    hide Advance;
    if n > 0 {
      AdvanceLive(mode, k);
      NeverZero(mode, Advance(mode, k), n - 1);
    }
  }

  lemma AdvanceLive(mode: int, k: Regs)
    requires Live(k)
    ensures Live(Advance(mode, k))
  {
    hide Step17, Step25, Addend17, Addend25;
    StepsNonZero(k.r17, k.r25);
  }

  // ---------------------------------------------------------------------------
  // The key object and its in-place operations
  // ---------------------------------------------------------------------------

  class Key {
    var lfsr17: Word
    var lfsr25: Word
    var lfsrsum: nat
    const seed: array<bv8>
    const data: array<bv8>
    const subkey: array<bv8>
    var encrypt: bool
    var mode: int
    var subkeyAvailable: bool

    ghost predicate Valid()
      reads this
    {
      Shaped(Registers()) && seed.Length == KEYSIZE && data.Length == KEYSIZE && subkey.Length == KEYSIZE &&
      seed != data && seed != subkey && data != subkey
    }

    function Registers(): Regs
      reads this
    {
      Regs(lfsr17, lfsr25, lfsrsum)
    }

    constructor ()
      ensures Valid() && fresh(seed) && fresh(data) && fresh(subkey)
    {
      seed := new bv8[KEYSIZE];
      data := new bv8[KEYSIZE];
      subkey := new bv8[KEYSIZE];
      lfsr17, lfsr25, lfsrsum := Zero(17), Zero(25), 0;
      encrypt, mode, subkeyAvailable := false, AUTHENTICATE, false;
    }

    method Reseed()
      requires Valid()
      modifies this`lfsr17, this`lfsr25, this`lfsrsum, seed
      ensures seed[..] == Seeds(data[..], subkey[..], subkeyAvailable)
      ensures Registers() == Seeded(seed[..])
    {
      var i := 0;
      while i < KEYSIZE
        invariant 0 <= i <= KEYSIZE
        invariant forall j :: 0 <= j < i ==> seed[j] == SeedByte(data[j], subkey[j], subkeyAvailable)
      {
        hide SeedByte;
        seed[i] := SeedByte(data[i], subkey[i], subkeyAvailable);
        i := i + 1;
      }
      hide Seed17, Seed25;
      lfsr17 := Seed17(seed[..]);
      lfsr25 := Seed25(seed[..]);
      lfsrsum := 0;
    }

    // A negative enc leaves the direction alone.
    method SetKey(bytes: seq<bv8>, enc: int, mode: int)
      requires Valid() && |bytes| == KEYSIZE
      modifies this, seed, data, subkey
      ensures data[..] == bytes && subkey[..] == seq(KEYSIZE, _ => 0) && !subkeyAvailable
      ensures encrypt == (if enc != -1 then enc != 0 else old(encrypt)) && this.mode == mode
      ensures Registers() == Seeded(Seeds(bytes, subkey[..], false)) && Live(Registers())
    {
      hide Seeds, Seeded, Live;
      forall i | 0 <= i < KEYSIZE { data[i] := bytes[i]; }
      forall i | 0 <= i < KEYSIZE { subkey[i] := 0; }
      if enc != -1 {
        encrypt := enc != 0;
      }
      this.mode := mode;
      subkeyAvailable := false;
      Reseed();
      assert data[..] == bytes;
      SeedBijective(seed[..], Registers());
    }

    method SetSubkey(bytes: seq<bv8>)
      requires Valid() && |bytes| == KEYSIZE
      modifies this`lfsr17, this`lfsr25, this`lfsrsum, this`subkeyAvailable, seed, subkey
      ensures subkey[..] == bytes && subkeyAvailable && data[..] == old(data[..])
      ensures Registers() == Seeded(Seeds(data[..], bytes, true)) && Live(Registers())
    {
      hide Seeds, Seeded, Live;
      forall i | 0 <= i < KEYSIZE { subkey[i] := bytes[i]; }
      subkeyAvailable := true;
      Reseed();
      assert subkey[..] == bytes;
      SeedBijective(seed[..], Registers());
    }

    // Processes len bytes; output may be the input buffer itself. An unknown mode fails on the
    // first byte, after the two registers have already moved.
    method Process(len: nat, input: array<bv8>, output: array<bv8>) returns (rc: int)
      requires Valid() && len <= input.Length && len <= output.Length
      modifies this`lfsr17, this`lfsr25, this`lfsrsum, output
      ensures rc == if len == 0 || KnownMode(mode) then 0 else 1
      ensures rc == 0 ==> Registers() == Crypt(mode, encrypt, old(Registers()), old(input[..len])).0
      ensures rc == 0 ==> output[..len] == Crypt(mode, encrypt, old(Registers()), old(input[..len])).1
      ensures rc == 0 ==> output[len..] == old(output[len..])
      ensures rc == 1 ==> Registers() == Regs(Step17(old(lfsr17)), Step25(old(lfsr25)), old(lfsrsum))
                          && output[..] == old(output[..])
    {
      hide Advance, CryptByte, StreamByte, Step17, Step25;
      ghost var start := Registers();
      ghost var plain := input[..len];
      var i := 0;
      assert (start, output[..0]) == Crypt(mode, encrypt, start, plain[..0]);
      hide Crypt;
      while i < len
        invariant 0 <= i <= len
        invariant i > 0 ==> KnownMode(mode)
        invariant Shaped(Registers())
        invariant (Registers(), output[..i]) == Crypt(mode, encrypt, start, plain[..i])
        invariant output[i..] == old(output[i..])
        invariant forall j :: i <= j < len ==> input[j] == plain[j]
      {
        ghost var done := output[..i];
        ghost var before := Registers();
        assert output[i + 1..] == old(output[i + 1..]);
        var known := AdvanceRegisters();
        if !known {
          return 1;
        }
        output[i] := CryptByte(encrypt, StreamByte(Registers()), input[i]);
        assert output[..i + 1] == done + [output[i]];
        CryptSnoc(mode, encrypt, start, plain, i);
        i := i + 1;
      }
      assert plain[..len] == plain;
      return 0;
    }

    // The part of the loop body that touches only the registers.
    method AdvanceRegisters() returns (known: bool)
      requires Shaped(Registers())
      modifies this`lfsr17, this`lfsr25, this`lfsrsum
      ensures known == KnownMode(mode)
      ensures Registers() == if known then Advance(mode, old(Registers()))
                             else Regs(Step17(old(lfsr17)), Step25(old(lfsr25)), old(lfsrsum))
    {
      lfsr17 := Step17(lfsr17);
      lfsr25 := Step25(lfsr25);
      var carry := lfsrsum / 256;
      if !KnownMode(mode) {
        return false;
      }
      lfsrsum := Addend17(mode, lfsr17);
      lfsrsum := lfsrsum + Addend25(mode, lfsr25);
      lfsrsum := lfsrsum + carry;
      return true;
    }
  }

  lemma CryptOne(mode: int, enc: bool, k: Regs, b: bv8)
    requires Shaped(k)
    ensures Crypt(mode, enc, k, [b]) == (Advance(mode, k), [CryptByte(enc, StreamByte(Advance(mode, k)), b)])
  {
    var k1 := Advance(mode, k);
    hide Advance, StreamByte, CryptByte;
    assert [b][1..] == [];
    assert Crypt(mode, enc, k1, []) == (k1, []);
    assert [CryptByte(enc, StreamByte(k1), b)] + [] == [CryptByte(enc, StreamByte(k1), b)];
  }

  lemma CryptSnoc(mode: int, enc: bool, k: Regs, plain: seq<bv8>, i: nat)
    requires Shaped(k)
    requires i < |plain|
    ensures var r := Crypt(mode, enc, k, plain[..i]);
            var k1 := Advance(mode, r.0);
            Crypt(mode, enc, k, plain[..i + 1]) == (k1, r.1 + [CryptByte(enc, StreamByte(k1), plain[i])])
  {
    hide Advance, StreamByte, CryptByte;
    assert plain[..i + 1] == plain[..i] + [plain[i]];
    CryptSplit(mode, enc, k, plain[..i], [plain[i]]);
    CryptOne(mode, enc, Crypt(mode, enc, k, plain[..i]).0, plain[i]);
  }
}
