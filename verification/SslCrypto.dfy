/** Cipher suites, record MACs and key derivation of SSL 3.0. The hash functions, the record
    ciphers and RSA are parameters: any functions with the sizes and inverses stated here. */
module SslCrypto {
  import opened Bytes

  // ---------------------------------------------------------------------------
  // Cipher suites
  // ---------------------------------------------------------------------------

  datatype Suite = NullSuite | TripleDesSha | Rc4Sha | Rc4Md5 {
    function Id(): nat {
      match this
      case NullSuite => 0x0000
      case TripleDesSha => 0x000A
      case Rc4Sha => 0x0005
      case Rc4Md5 => 0x0004
    }

    function MacSize(): nat {
      match this
      case NullSuite => 0
      case TripleDesSha => 20
      case Rc4Sha => 20
      case Rc4Md5 => 16
    }

    function KeySize(): nat {
      match this
      case NullSuite => 0
      case TripleDesSha => 24
      case Rc4Sha => 16
      case Rc4Md5 => 16
    }

    function IvSize(): nat {
      if TripleDesSha? then 8 else 0
    }

    function BlockSize(): nat {
      match this
      case NullSuite => 0
      case TripleDesSha => 8
      case Rc4Sha => 1
      case Rc4Md5 => 1
    }
  }

  // The table in order of preference; the null suite ends it and is not offered.
  const OFFERED: seq<Suite> := [TripleDesSha, Rc4Sha, Rc4Md5]

  function GetCipherSpec(id: nat): (r: Option<Suite>)
    ensures r.Some? ==> r.value.Id() == id
    ensures forall s: Suite :: s.Id() == id ==> r == Some(s)
  {
    if id == 0x000A then Some(TripleDesSha)
    else if id == 0x0005 then Some(Rc4Sha)
    else if id == 0x0004 then Some(Rc4Md5)
    else if id == 0x0000 then Some(NullSuite)
    else None
  }

  function CipherSpecList(): Octets {
    Be2(6) + Be2(0x000A) + Be2(0x0005) + Be2(0x0004)
  }

  // ---------------------------------------------------------------------------
  // Primitives
  // ---------------------------------------------------------------------------

  datatype PubKey = PubKey(id: Octets, size: nat)

  datatype PrivKey = PrivKey(id: Octets)

  // A cipher context is kept as bytes; encryption and decryption contexts start out equal.
  datatype Crypto = Crypto(
    md5: Octets -> Octets,
    sha1: Octets -> Octets,
    init: (Suite, Octets, Octets) -> Octets,
    enc: (Suite, Octets, Octets) -> (Octets, Octets),
    dec: (Suite, Octets, Octets) -> (Octets, Octets),
    encPub: (PubKey, Octets) -> Octets,
    decPriv: (PrivKey, Octets) -> Option<Octets>)

  ghost predicate Sound(c: Crypto) {
    && (forall x :: |c.md5(x)| == 16)
    && (forall x :: |c.sha1(x)| == 20)
    && (forall s, k, x :: |c.enc(s, k, x).1| == |x|)
    && (forall s, k, x :: |c.dec(s, k, x).1| == |x|)
    && (forall s, k, x :: c.dec(s, k, c.enc(s, k, x).1) == (c.enc(s, k, x).0, x))
    && (forall k, x :: |c.encPub(k, x)| == k.size)
  }

  ghost predicate KeyPair(c: Crypto, pub: PubKey, priv: PrivKey) {
    forall x :: |x| == 48 ==> c.decPriv(priv, c.encPub(pub, x)) == Some(x)
  }

  // The null provider passes data unchanged; a block cipher refuses a broken last block.
  function Encrypt(c: Crypto, s: Suite, ctx: Octets, x: Octets): (Octets, Octets) {
    if s.NullSuite? then (ctx, x) else c.enc(s, ctx, x)
  }

  function Decrypt(c: Crypto, s: Suite, ctx: Octets, x: Octets): Option<(Octets, Octets)> {
    if s.NullSuite? then Some((ctx, x))
    else if s.TripleDesSha? && |x| % 8 != 0 then None
    else Some(c.dec(s, ctx, x))
  }

  lemma DecryptUndoesEncrypt(c: Crypto, s: Suite, ctx: Octets, x: Octets)
    requires Sound(c)
    requires s.TripleDesSha? ==> |x| % 8 == 0
    ensures |Encrypt(c, s, ctx, x).1| == |x|
    ensures Decrypt(c, s, ctx, Encrypt(c, s, ctx, x).1) == Some((Encrypt(c, s, ctx, x).0, x))
  {
  }

  lemma DecryptSize(c: Crypto, s: Suite, ctx: Octets, x: Octets)
    requires Sound(c)
    ensures Decrypt(c, s, ctx, x).Some? ==> |Decrypt(c, s, ctx, x).value.1| == |x|
  {
  }

  // ---------------------------------------------------------------------------
  // MAC and Finished hash
  // ---------------------------------------------------------------------------

  function Pad1(n: nat): Octets { Repeat(0x36, n) }

  function Pad2(n: nat): Octets { Repeat(0x5c, n) }

  function Mac(c: Crypto, s: Suite, key: Octets, seqNo: Octets, typ: byte, data: Octets): Octets {
    var input := seqNo + [typ] + Be2(|data|) + data;
    match s
    case NullSuite => []
    case TripleDesSha => c.sha1(key + Pad2(40) + c.sha1(key + Pad1(40) + input))
    case Rc4Sha => c.sha1(key + Pad2(40) + c.sha1(key + Pad1(40) + input))
    case Rc4Md5 => c.md5(key + Pad2(48) + c.md5(key + Pad1(48) + input))
  }

  lemma MacLength(c: Crypto, s: Suite, key: Octets, seqNo: Octets, typ: byte, data: Octets)
    requires Sound(c)
    ensures |Mac(c, s, key, seqNo, typ, data)| == s.MacSize()
  {
  }

  const SENDER_CLIENT: Octets := [0x43, 0x4c, 0x4e, 0x54]
  const SENDER_SERVER: Octets := [0x53, 0x52, 0x56, 0x52]

  function FinishedHash(c: Crypto, transcript: Octets, master: Octets, byServer: bool): Octets {
    var sender := if byServer then SENDER_SERVER else SENDER_CLIENT;
    c.md5(master + Pad2(48) + c.md5(transcript + sender + master + Pad1(48)))
    + c.sha1(master + Pad2(40) + c.sha1(transcript + sender + master + Pad1(40)))
  }

  lemma FinishedHashLength(c: Crypto, transcript: Octets, master: Octets, byServer: bool)
    requires Sound(c)
    ensures |FinishedHash(c, transcript, master, byServer)| == 36
  {
  }

  // ---------------------------------------------------------------------------
  // Key derivation
  // ---------------------------------------------------------------------------

  // 'A', 'BB', 'CCC', ...
  function Salt(i: nat): Octets
    requires i < 10
  {
    Repeat(0x41 + i, i + 1)
  }

  // Rounds 0 .. n-1 of MD5(secret + SHA(salt + secret + first + second)).
  function Expand(c: Crypto, secret: Octets, first: Octets, second: Octets, n: nat): Octets
    requires n <= 10
  {
    if n == 0 then []
    else Expand(c, secret, first, second, n - 1)
         + c.md5(secret + c.sha1(Salt(n - 1) + secret + first + second))
  }

  lemma {:induction false} ExpandLength(c: Crypto, secret: Octets, first: Octets, second: Octets, n: nat)
    requires Sound(c) && n <= 10
    ensures |Expand(c, secret, first, second, n)| == 16 * n
  {
    if n > 0 {
      ExpandLength(c, secret, first, second, n - 1);
    }
  }

  function MasterSecret(c: Crypto, premaster: Octets, clientRandom: Octets, serverRandom: Octets): Octets {
    Expand(c, premaster, clientRandom, serverRandom, 3)
  }

  function KeyMaterial(s: Suite): nat {
    2 * s.MacSize() + 2 * s.KeySize() + 2 * s.IvSize()
  }

  // The least number of 16-byte rounds, at least one, that covers the required length.
  function KeyRounds(s: Suite): (n: nat)
    ensures 1 <= n <= 10 && KeyMaterial(s) <= 16 * n
    ensures n > 1 ==> 16 * (n - 1) < KeyMaterial(s)
  {
    match s
    case NullSuite => 1
    case TripleDesSha => 7
    case Rc4Sha => 5
    case Rc4Md5 => 4
  }

  function KeyBlock(c: Crypto, s: Suite, master: Octets, clientRandom: Octets, serverRandom: Octets): Octets {
    Expand(c, master, serverRandom, clientRandom, KeyRounds(s))
  }

  // The six slices of the key block; the client's write values are the server's read values.
  datatype Slices = Slices(wMac: Octets, rMac: Octets, wKey: Octets, rKey: Octets, wIv: Octets, rIv: Octets)

  function Slice(s: Suite, block: Octets, server: bool): Slices
    requires KeyMaterial(s) <= |block|
  {
    var m, k, v := s.MacSize(), s.KeySize(), s.IvSize();
    var mac0, mac1 := block[..m], block[m..2 * m];
    var key0, key1 := block[2 * m..2 * m + k], block[2 * m + k..2 * m + 2 * k];
    var iv0, iv1 := block[2 * m + 2 * k..2 * m + 2 * k + v], block[2 * m + 2 * k + v..2 * m + 2 * k + 2 * v];
    if server then Slices(mac1, mac0, key1, key0, iv1, iv0)
    else Slices(mac0, mac1, key0, key1, iv0, iv1)
  }

  lemma SlicesMirror(s: Suite, block: Octets)
    requires KeyMaterial(s) <= |block|
    ensures var a, b := Slice(s, block, false), Slice(s, block, true);
            a.wMac == b.rMac && a.rMac == b.wMac && a.wKey == b.rKey && a.rKey == b.wKey
            && a.wIv == b.rIv && a.rIv == b.wIv
  {
  }
}
