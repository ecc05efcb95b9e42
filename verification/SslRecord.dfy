/** The SSL 3.0 record layer: sealing a fragment on the writing side and opening it on the
    reading side. */
module SslRecord {
  import opened Bytes
  import opened SslCrypto

  const CHANGE_CIPHER_SPEC: byte := 20
  const ALERT: byte := 21
  const HANDSHAKE: byte := 22
  const APPLICATION_DATA: byte := 23

  const HEADER := 5
  const SSL2_HEADER := 2
  const HS_HEADER := 4

  const MAX_PLAINTEXT := 0x20000
  const MAX_RECORD := MAX_PLAINTEXT + 2048
  const MAX_BUF := MAX_RECORD + 5

  const ALERT_NONE: byte := 255
  const UNEXPECTED_MESSAGE: byte := 10
  const BAD_RECORD_MAC: byte := 20
  const HANDSHAKE_FAILURE: byte := 40
  const NO_CERTIFICATE: byte := 41
  const BAD_CERTIFICATE: byte := 42
  const ILLEGAL_PARAMETER: byte := 47

  // One direction of live protection: the activated suite, its keys, cipher context and counter.
  datatype Half = Half(suite: Suite, mac: Octets, key: Octets, iv: Octets, ctx: Octets, counter: Octets)

  const PLAIN := Half(NullSuite, [], [], [], [], Repeat(0, 8))

  // Activation copies the keys, starts a fresh cipher context and resets the counter.
  function Activate(c: Crypto, suite: Suite, mac: Octets, key: Octets, iv: Octets): Half {
    Half(suite, mac, key, iv, if suite.NullSuite? then [] else c.init(suite, key, iv), Repeat(0, 8))
  }

  // The MAC routine steps the counter; the null MAC does not touch it.
  function Tick(h: Half): Octets {
    if h.suite.NullSuite? then h.counter else Next(h.counter)
  }

  // ---------------------------------------------------------------------------
  // Writing
  // ---------------------------------------------------------------------------

  // Pad bytes that make room for the length byte and fill the last block.
  function PadLen(len: nat, block: nat): (p: nat)
    ensures block <= 1 ==> p == 0
    ensures block > 1 ==> 1 <= p <= block
    ensures block == 8 ==> (len + p) % 8 == 0
  {
    if block <= 1 then 0 else block - len % block
  }

  function Padding(p: nat): Octets
    requires p <= 256
  {
    if p == 0 then [] else Repeat(p - 1, p)
  }

  // Bytes that protection adds to a fragment of the given length.
  function Overhead(s: Suite, len: nat): nat {
    s.MacSize() + PadLen(len + s.MacSize(), s.BlockSize())
  }

  // The fragment before encryption: data, MAC, padding.
  function Fragment(c: Crypto, h: Half, typ: byte, data: Octets): Octets {
    var mac := Mac(c, h.suite, h.mac, h.counter, typ, data);
    data + mac + Padding(PadLen(|data| + h.suite.MacSize(), h.suite.BlockSize()))
  }

  function Header(typ: byte, maj: byte, min: byte, len: nat): (b: Octets)
    ensures |b| == HEADER
  {
    [typ, maj, min] + Be2(len)
  }

  function Seal(c: Crypto, h: Half, typ: byte, maj: byte, min: byte, data: Octets): (Half, Octets) {
    var plain := Fragment(c, h, typ, data);
    var (ctx, cipher) := Encrypt(c, h.suite, h.ctx, plain);
    (h.(ctx := ctx, counter := Tick(h)), Header(typ, maj, min, |plain|) + cipher)
  }

  lemma FragmentLength(c: Crypto, h: Half, typ: byte, data: Octets)
    requires Sound(c)
    ensures |Fragment(c, h, typ, data)| == |data| + Overhead(h.suite, |data|)
    ensures h.suite.TripleDesSha? ==> |Fragment(c, h, typ, data)| % 8 == 0
    ensures Overhead(h.suite, |data|) <= 28
  {
    MacLength(c, h.suite, h.mac, h.counter, typ, data);
    hide Sound, Mac;
  }

  lemma SealLength(c: Crypto, h: Half, typ: byte, maj: byte, min: byte, data: Octets)
    requires Sound(c)
    ensures |Seal(c, h, typ, maj, min, data).1| == HEADER + |data| + Overhead(h.suite, |data|)
  {
    FragmentLength(c, h, typ, data);
    DecryptUndoesEncrypt(c, h.suite, h.ctx, Fragment(c, h, typ, data));
    hide Sound, Fragment, Encrypt;
  }

  // ---------------------------------------------------------------------------
  // Reading
  // ---------------------------------------------------------------------------

  // The header as read; an SSLv2 header counts as a handshake record of major version 2.
  datatype Rec = Rec(typ: byte, maj: byte, min: byte, len: nat)

  // How the reading side stands: its protection and what it knows of the version.
  datatype Reader = Reader(half: Half, secure: bool, maj: byte, min: byte, checkVersion: bool)

  datatype Opened =
    | Short                                             // not enough input
    | Tight                                             // not enough room for the plaintext
    | Bad(alert: byte, half: Half, len: nat)            // protocol error
    | Plain(rec: Rec, data: Octets, half: Half, used: nat)

  function ReadHeader(maj: byte, b: Octets): (r: Option<(Rec, nat)>)
    ensures r.Some? ==> r.value.1 <= |b| && r.value.1 >= 2
  {
    if |b| < SSL2_HEADER then None
    else if maj != 0 || b[0] < 0x80 then
      if |b| < HEADER then None
      else Some((Rec(b[0], b[1], b[2], Get2(b[3..])), HEADER))
    else
      Some((Rec(HANDSHAKE, 2, 0, Get2([b[0] - 0x80] + b[1..])), SSL2_HEADER))
  }

  function HeaderAlert(r: Reader, rec: Rec): byte {
    if rec.typ != CHANGE_CIPHER_SPEC && rec.typ != ALERT && rec.typ != HANDSHAKE && rec.typ != APPLICATION_DATA then
      UNEXPECTED_MESSAGE
    else if r.checkVersion && (rec.maj != r.maj || rec.min != r.min) then
      ILLEGAL_PARAMETER
    else if rec.len > MAX_RECORD || rec.len == 0 then
      ILLEGAL_PARAMETER
    else
      ALERT_NONE
  }

  // Where the data ends in a decrypted fragment and whether the padding was acceptable. The data
  // end is always followed by a whole MAC.
  function DataEnd(r: Reader, plain: Octets): (e: (nat, bool))
    requires |plain| >= 1 && |plain| >= r.half.suite.MacSize()
    ensures e.0 + r.half.suite.MacSize() <= |plain|
  {
    var suite := r.half.suite;
    var end := |plain| - suite.MacSize();
    if suite.BlockSize() <= 1 then (end, true)
    else
      var pad := plain[|plain| - 1];
      if r.maj == 3 && r.min == 0 && pad >= suite.BlockSize() then (end, false)
      else if |plain| < suite.MacSize() + pad + 1 then (end, false)
      else (end - pad - 1, true)
  }

  function Unprotect(c: Crypto, r: Reader, rec: Rec, used: nat, ctx: Octets, plain: Octets): Opened
    requires |plain| >= 1
  {
    var h := r.half.(ctx := ctx);
    if !r.secure then Plain(rec, plain, h, used)
    else if |plain| < h.suite.MacSize() then Bad(BAD_RECORD_MAC, h, rec.len)
    else
      var (end, padOk) := DataEnd(r, plain);
      var data, mac := plain[..end], plain[end..end + h.suite.MacSize()];
      var expected := Mac(c, h.suite, h.mac, h.counter, rec.typ, data);
      var h1 := h.(counter := Tick(h));
      if mac != expected || !padOk then Bad(BAD_RECORD_MAC, h1, rec.len)
      else if |data| > MAX_PLAINTEXT then Bad(BAD_RECORD_MAC, h1, rec.len)
      else Plain(rec, data, h1, used)
  }

  function Open(c: Crypto, r: Reader, b: Octets, free: nat): Opened
    requires Sound(c)
  {
    var head := ReadHeader(r.maj, b);
    if head.None? then Short
    else
      var (rec, at) := head.value;
      var alert := HeaderAlert(r, rec);
      if alert != ALERT_NONE then Bad(alert, r.half, rec.len)
      else if |b| < at + rec.len then Short
      else if free < rec.len then Tight
      else
        var d := Decrypt(c, r.half.suite, r.half.ctx, b[at..at + rec.len]);
        DecryptSize(c, r.half.suite, r.half.ctx, b[at..at + rec.len]);
        if d.None? then Bad(ILLEGAL_PARAMETER, r.half, rec.len)
        else Unprotect(c, r, rec, at + rec.len, d.value.0, d.value.1)
  }

  // ---------------------------------------------------------------------------
  // What a protected reader accepts
  // ---------------------------------------------------------------------------

  // The padding says its own length; under SSL 3.0 it stays within a block.
  ghost predicate PadFits(r: Reader, pad: Octets) {
    if r.half.suite.BlockSize() <= 1 then pad == []
    else pad != [] && pad[|pad| - 1] == |pad| - 1 && (r.maj == 3 && r.min == 0 ==> |pad| <= r.half.suite.BlockSize())
  }

  // The plaintext is data with the MAC for the reader's own counter, and padding.
  ghost predicate Protects(c: Crypto, r: Reader, typ: byte, data: Octets, pad: Octets, plain: Octets) {
    && plain == data + Mac(c, r.half.suite, r.half.mac, r.half.counter, typ, data) + pad
    && PadFits(r, pad) && |data| <= MAX_PLAINTEXT
  }

  lemma ProtectedIsAccepted(c: Crypto, r: Reader, rec: Rec, used: nat, ctx: Octets, data: Octets, pad: Octets,
                            plain: Octets)
    requires Sound(c) && r.secure && |plain| >= 1 && Protects(c, r, rec.typ, data, pad, plain)
    ensures Unprotect(c, r, rec, used, ctx, plain)
         == Plain(rec, data, r.half.(ctx := ctx, counter := Tick(r.half)), used)
  {
    MacLength(c, r.half.suite, r.half.mac, r.half.counter, rec.typ, data);
    hide Sound, Mac, Tick;
    var mac := Mac(c, r.half.suite, r.half.mac, r.half.counter, rec.typ, data);
    assert plain[..|data|] == data && plain[|data|..|data| + |mac|] == mac;
    if pad != [] {
      assert plain[|plain| - 1] == pad[|pad| - 1];
    }
  }

  lemma AcceptedIsProtected(c: Crypto, r: Reader, rec: Rec, used: nat, ctx: Octets, plain: Octets)
    requires Sound(c) && r.secure && |plain| >= 1 && Unprotect(c, r, rec, used, ctx, plain).Plain?
    ensures exists pad :: Protects(c, r, rec.typ, Unprotect(c, r, rec, used, ctx, plain).data, pad, plain)
  {
    hide Sound, Mac, Tick;
    var n := r.half.suite.MacSize();
    var (end, padOk) := DataEnd(r, plain);
    var data, mac, pad := plain[..end], plain[end..end + n], plain[end + n..];
    assert plain == data + mac + pad;
    assert Protects(c, r, rec.typ, data, pad, plain);
  }

  // A protected reader accepts exactly the plaintexts that carry the MAC for its counter.
  lemma AcceptsExactly(c: Crypto, r: Reader, rec: Rec, used: nat, ctx: Octets, plain: Octets)
    requires Sound(c) && r.secure && |plain| >= 1
    ensures Unprotect(c, r, rec, used, ctx, plain).Plain?
            <==> exists data, pad :: Protects(c, r, rec.typ, data, pad, plain)
    ensures var o := Unprotect(c, r, rec, used, ctx, plain);
            o.Plain? || (o.Bad? && o.alert == BAD_RECORD_MAC)
  {
    if data, pad :| Protects(c, r, rec.typ, data, pad, plain) {
      ProtectedIsAccepted(c, r, rec, used, ctx, data, pad, plain);
    }
    if Unprotect(c, r, rec, used, ctx, plain).Plain? {
      AcceptedIsProtected(c, r, rec, used, ctx, plain);
    }
    hide Sound, Mac, Tick, Protects, DataEnd;
  }

  // A record that was opened, met again by the reader as it then stands: the header passes, and
  // the same bytes are decrypted in the context behind them.
  lemma OpenAgain(c: Crypto, r: Reader, b: Octets, free: nat) returns (ctx: Octets, plain: Octets)
    requires Sound(c) && r.secure && Open(c, r, b, free).Plain?
    ensures var o := Open(c, r, b, free);
            && ReadHeader(r.maj, b).Some?
            && var (rec, at) := ReadHeader(r.maj, b).value;
               && rec == o.rec && at + rec.len == o.used <= |b| && |plain| >= 1
               && o.half.suite == r.half.suite && o.half.counter == Tick(r.half)
               && Decrypt(c, r.half.suite, o.half.ctx, b[at..o.used]) == Some((ctx, plain))
               && Open(c, r.(half := o.half), b, free)
                  == Unprotect(c, r.(half := o.half), rec, o.used, ctx, plain)
  {
    hide Sound, ReadHeader, Unprotect, Tick;
    var o := Open(c, r, b, free);
    OpenBound(c, r, b, free);
    var (rec, at) := ReadHeader(r.maj, b).value;
    var body := b[at..at + rec.len];
    DecryptSize(c, r.half.suite, r.half.ctx, body);
    HalfMovesOn(c, r, rec, o.used, Decrypt(c, r.half.suite, r.half.ctx, body).value.0,
                Decrypt(c, r.half.suite, r.half.ctx, body).value.1);
    DecryptSize(c, r.half.suite, o.half.ctx, body);
    var again := Decrypt(c, r.half.suite, o.half.ctx, body).value;
    ctx, plain := again.0, again.1;
  }

  lemma HalfMovesOn(c: Crypto, r: Reader, rec: Rec, used: nat, ctx: Octets, plain: Octets)
    requires r.secure && |plain| >= 1
    ensures var o := Unprotect(c, r, rec, used, ctx, plain);
            o.Plain? ==> o.rec == rec && o.used == used && o.half == r.half.(ctx := ctx, counter := Tick(r.half))
  {
    hide Mac, DataEnd;
  }

  // ---------------------------------------------------------------------------
  // Opening undoes sealing
  // ---------------------------------------------------------------------------

  predicate ValidType(typ: byte) {
    CHANGE_CIPHER_SPEC <= typ <= APPLICATION_DATA
  }

  // The reader is in step with the writer: same protection, and a version it will accept.
  ghost predicate InStep(h: Half, r: Reader, maj: byte, min: byte) {
    && r.half == h
    && r.secure == !h.suite.NullSuite?
    && (r.checkVersion ==> r.maj == maj && r.min == min)
  }

  lemma UnprotectFragment(c: Crypto, h: Half, typ: byte, data: Octets, r: Reader, rec: Rec, used: nat, ctx: Octets)
    requires Sound(c)
    requires r.half == h && r.secure == !h.suite.NullSuite? && rec.typ == typ
    requires Fragment(c, h, typ, data) != [] && |data| <= MAX_PLAINTEXT
    ensures Unprotect(c, r, rec, used, ctx, Fragment(c, h, typ, data))
         == Plain(rec, data, h.(ctx := ctx, counter := Tick(h)), used)
  {
    FragmentLength(c, h, typ, data);
    if r.secure {
      var pad := Padding(PadLen(|data| + h.suite.MacSize(), h.suite.BlockSize()));
      hide Sound, Mac, Unprotect;
      ProtectedIsAccepted(c, r, rec, used, ctx, data, pad, Fragment(c, h, typ, data));
    }
  }

  lemma HeaderReadBack(r: Reader, typ: byte, maj: byte, min: byte, len: nat, rest: Octets)
    requires ValidType(typ)
    requires r.checkVersion ==> r.maj == maj && r.min == min
    ensures ReadHeader(r.maj, Header(typ, maj, min, len) + rest) == Some((Rec(typ, maj, min, len % 0x10000), HEADER))
    ensures 0 < len < 0x10000 ==> HeaderAlert(r, Rec(typ, maj, min, len)) == ALERT_NONE
  {
    var b := Header(typ, maj, min, len) + rest;
    assert b[0] == typ && b[1] == maj && b[2] == min;
    assert b[3..] == Be2(len) + rest;
    GetBe2(len, rest);
  }

  // A sealed record that fits the 16-bit length opens to what was sealed, whatever follows it,
  // and leaves reader and writer in step.
  lemma OpenSeal(c: Crypto, h: Half, typ: byte, maj: byte, min: byte, data: Octets, r: Reader, rest: Octets, free: nat)
    requires Sound(c) && ValidType(typ) && InStep(h, r, maj, min)
    requires 0 < |Fragment(c, h, typ, data)| < 0x10000 && |Fragment(c, h, typ, data)| <= free
    ensures var (h1, wire) := Seal(c, h, typ, maj, min, data);
            Open(c, r, wire + rest, free)
            == Plain(Rec(typ, maj, min, |Fragment(c, h, typ, data)|), data, h1, |wire|)
  {
    hide Sound, Fragment, Encrypt, Decrypt, Header, ReadHeader, HeaderAlert, Unprotect, Tick, Overhead;
    var plain := Fragment(c, h, typ, data);
    var cipher := Encrypt(c, h.suite, h.ctx, plain).1;
    var head := Header(typ, maj, min, |plain|);
    var (h1, wire) := Seal(c, h, typ, maj, min, data);
    FragmentLength(c, h, typ, data);
    DecryptUndoesEncrypt(c, h.suite, h.ctx, plain);
    assert wire + rest == head + (cipher + rest);
    HeaderReadBack(r, typ, maj, min, |plain|, cipher + rest);
    assert (wire + rest)[HEADER..HEADER + |plain|] == cipher;
    var rec := Rec(typ, maj, min, |plain|);
    UnprotectFragment(c, h, typ, data, r, rec, |wire|, h1.ctx);
  }

  // A longer fragment is announced modulo 2^16, and what the reader then delivers is shorter
  // than what was sealed.
  lemma OpenTruncated(c: Crypto, h: Half, typ: byte, maj: byte, min: byte, data: Octets, r: Reader, rest: Octets,
                      free: nat)
    requires Sound(c) && ValidType(typ) && InStep(h, r, maj, min)
    requires |Fragment(c, h, typ, data)| >= 0x10000
    ensures var o := Open(c, r, Seal(c, h, typ, maj, min, data).1 + rest, free);
            o.Plain? ==> |o.data| < |data|
  {
    hide Sound, Fragment, Encrypt, Header, ReadHeader, Open, Overhead;
    var plain := Fragment(c, h, typ, data);
    var cipher := Encrypt(c, h.suite, h.ctx, plain).1;
    var wire := Seal(c, h, typ, maj, min, data).1;
    FragmentLength(c, h, typ, data);
    DecryptUndoesEncrypt(c, h.suite, h.ctx, plain);
    assert wire + rest == Header(typ, maj, min, |plain|) + (cipher + rest);
    HeaderReadBack(r, typ, maj, min, |plain|, cipher + rest);
    OpenBound(c, r, wire + rest, free);
  }

  // What is delivered is no longer than the record announced.
  lemma OpenBound(c: Crypto, r: Reader, b: Octets, free: nat)
    requires Sound(c)
    ensures var o := Open(c, r, b, free);
            o.Plain? ==> ReadHeader(r.maj, b).Some? && o.rec == ReadHeader(r.maj, b).value.0
                         && |o.data| <= o.rec.len && o.rec.len <= free
                         && o.used == ReadHeader(r.maj, b).value.1 + o.rec.len <= |b|
  {
    hide Sound, Mac, HeaderAlert, Decrypt, ReadHeader;
    if ReadHeader(r.maj, b).Some? {
      var (rec, at) := ReadHeader(r.maj, b).value;
      if at + rec.len <= |b| {
        DecryptSize(c, r.half.suite, r.half.ctx, b[at..at + rec.len]);
      }
    }
  }

  // Input beyond the record does not matter, and a record once complete stays so.
  lemma OpenIgnoresRest(c: Crypto, r: Reader, b: Octets, rest: Octets, free: nat)
    requires Sound(c) && !Open(c, r, b, free).Short?
    ensures Open(c, r, b + rest, free) == Open(c, r, b, free)
  {
    hide Sound, Unprotect, HeaderAlert, Decrypt;
    assert ReadHeader(r.maj, b).Some?;
    assert ReadHeader(r.maj, b + rest) == ReadHeader(r.maj, b) by { HeaderIgnoresRest(r.maj, b, rest); }
    var (rec, at) := ReadHeader(r.maj, b).value;
    hide ReadHeader;
    if |b| >= at + rec.len {
      assert (b + rest)[at..at + rec.len] == b[at..at + rec.len];
    }
  }

  lemma HeaderIgnoresRest(maj: byte, b: Octets, rest: Octets)
    requires ReadHeader(maj, b).Some?
    ensures ReadHeader(maj, b + rest) == ReadHeader(maj, b)
  {
    assert forall i :: 0 <= i < |b| ==> (b + rest)[i] == b[i];
  }
}
