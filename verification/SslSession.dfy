/** The session object and its buffers, updated in place: the record writer, the flights, key
    derivation, the handshake parser's loop and the decoder's loop. Every method is proved to do
    what the functions of the other SSL modules say. */
module SslSession {
  import opened Bytes
  import opened SslCrypto
  import opened SslRecord
  import opened SslState
  import opened SslHandshake
  import opened SslFlight
  import opened SslDecode

  // ---------------------------------------------------------------------------
  // Buffers
  // ---------------------------------------------------------------------------

  // The bytes between start and end are in use; what lies beyond end is free.
  class Buffer {
    const buf: array<byte>
    var start: nat
    var end: nat

    ghost predicate Valid()
      reads this
    {
      start <= end <= buf.Length
    }

    function Contents(): Octets
      requires Valid()
      reads this, buf
    {
      buf[..end][start..]
    }

    function Free(): nat
      requires Valid()
      reads this
    {
      buf.Length - end
    }

    // Contents and room together.
    ghost function State(): (Octets, nat)
      requires Valid()
      reads this, buf
    {
      (Contents(), Free())
    }

    constructor (size: nat)
      ensures Valid() && Contents() == [] && Free() == size && fresh(buf)
    {
      buf := new byte[size](_ => 0);
      start, end := 0, 0;
    }
  }

  // Every pad byte is one less than the number of pad bytes.
  method WritePad(a: array<byte>, at: nat, padLen: byte)
    requires at + padLen <= a.Length
    modifies a
    ensures a[..at] == old(a[..at]) && a[at..at + padLen] == Padding(padLen)
            && a[at + padLen..] == old(a[at + padLen..])
  {
    var p, c := at, padLen as int;
    while c > 0
      invariant 0 <= c <= padLen as int && p == at + padLen as int - c
      invariant forall k :: 0 <= k < a.Length ==> a[k] == if at <= k < p then padLen - 1 else old(a[k])
    {
      a[p] := padLen - 1;
      p, c := p + 1, c - 1;
    }
  }

  method ExtendPad(a: array<byte>, at: nat, padLen: byte, ghost s: Octets)
    requires Holds(a, s) && |s| == at && at + padLen <= a.Length
    modifies a
    ensures Holds(a, s + Padding(padLen))
  {
    WritePad(a, at, padLen);
    assert a[..at + padLen] == a[..at] + a[at..at + padLen];
  }

  // Reads and overwrites what stands behind front.
  method Take(a: array<byte>, from: nat, end: nat, ghost front: Octets, ghost back: Octets) returns (b: Octets)
    requires Holds(a, front + back) && |front| == from && from + |back| == end
    ensures b == back && Holds(a, front)
  {
    b := a[from..end];
    assert a[..end][from..] == a[from..end];
    assert a[..end][..from] == a[..from];
  }

  // ---------------------------------------------------------------------------
  // Key block
  // ---------------------------------------------------------------------------

  // The search for the number of rounds finds the table's.
  method CountRounds(s: Suite) returns (rounds: nat)
    ensures rounds == KeyRounds(s)
  {
    var required := 2 * s.MacSize() + 2 * s.KeySize() + 2 * s.IvSize();
    rounds := 1;
    while 16 * rounds < required
      invariant 1 <= rounds <= KeyRounds(s)
    {
      rounds := rounds + 1;
    }
  }

  // Fills the block with 16 bytes a round.
  method FillBlock(c: Crypto, secret: Octets, first: Octets, second: Octets, rounds: nat, block: array<byte>)
    requires Sound(c) && rounds <= 10 && 16 * rounds <= block.Length
    modifies block
    ensures |Expand(c, secret, first, second, rounds)| == 16 * rounds
            && Holds(block, Expand(c, secret, first, second, rounds))
  {
    var i := 0;
    while i < rounds
      invariant 0 <= i <= rounds
      invariant |Expand(c, secret, first, second, i)| == 16 * i && Holds(block, Expand(c, secret, first, second, i))
    {
      var hash := c.md5(secret + c.sha1(Salt(i) + secret + first + second));
      Extend(block, 16 * i, hash, Expand(c, secret, first, second, i));
      i := i + 1;
    }
  }

  // ---------------------------------------------------------------------------
  // The session
  // ---------------------------------------------------------------------------

  datatype Status = Fine | NoSpace | Fatal

  // A writer's return code, the session and the buffer after it, against what w prescribes.
  ghost predicate Outcome(w: Written, status: Status, s: Sess, before: (Octets, nat), after: (Octets, nat)) {
    && s == w.s && after.0 == before.0 + w.out && after.1 == before.1 - |w.out|
    && status == match w { case Wrote(_, _) => Fine case Full(_, _) => NoSpace case Failed(_, _) => Fatal }
  }

  lemma FragmentParts(c: Crypto, h: Half, typ: byte, data: Octets)
    requires Sound(c)
    ensures var mac := Mac(c, h.suite, h.mac, h.counter, typ, data);
            var pad := PadLen(|data| + h.suite.MacSize(), h.suite.BlockSize());
            Fragment(c, h, typ, data) == data + mac + Padding(pad) && |mac| == h.suite.MacSize() && pad <= 8
            && |Padding(pad)| == pad && Overhead(h.suite, |data|) == |mac| + pad
            && (h.suite.NullSuite? ==> pad == 0 && mac == [])
  {
    MacLength(c, h.suite, h.mac, h.counter, typ, data);
    hide Sound, Mac;
  }

  // Sealing without the header: the new protection and the encrypted fragment.
  function SealData(c: Crypto, h: Half, typ: byte, data: Octets): (Half, Octets) {
    var (ctx, cipher) := Encrypt(c, h.suite, h.ctx, Fragment(c, h, typ, data));
    (h.(ctx := ctx, counter := Tick(h)), cipher)
  }

  lemma SealIs(c: Crypto, h: Half, typ: byte, maj: byte, min: byte, data: Octets)
    requires Sound(c)
    ensures var (h1, sealed) := SealData(c, h, typ, data);
            Seal(c, h, typ, maj, min, data) == (h1, Header(typ, maj, min, |data| + Overhead(h.suite, |data|)) + sealed)
            && |sealed| == |data| + Overhead(h.suite, |data|) && h1.suite == h.suite
  {
    FragmentLength(c, h, typ, data);
    DecryptUndoesEncrypt(c, h.suite, h.ctx, Fragment(c, h, typ, data));
    hide Sound, Fragment, Encrypt, Overhead, Header;
  }

  lemma Joins(front: Octets, x: Octets, y: Octets, z: Octets)
    ensures front + x + y + z == front + (x + y + z)
  {
  }

  // Appends MAC and padding to the data behind front and encrypts the whole fragment.
  method SealInPlace(c: Crypto, h: Half, typ: byte, padLen: byte, from: nat, at: nat, ghost front: Octets,
                     ghost data: Octets, a: array<byte>)
    returns (h1: Half, end: nat)
    requires Sound(c) && Holds(a, front + data) && |front| == from && from + |data| == at
    requires at + Overhead(h.suite, |data|) <= a.Length
    requires padLen as int == PadLen(|data| + h.suite.MacSize(), h.suite.BlockSize())
    modifies a
    ensures var (half, sealed) := SealData(c, h, typ, data);
            h1 == half && end == from + |sealed| && Holds(a, front + sealed)
  {
    FragmentParts(c, h, typ, data);
    DecryptUndoesEncrypt(c, h.suite, h.ctx, Fragment(c, h, typ, data));
    hide Sound, Holds, Mac, Fragment, Encrypt, Tick, Overhead, PadLen, Padding;
    var plain := Take(a, from, at, front, data);
    var mac := Mac(c, h.suite, h.mac, h.counter, typ, plain);
    Extend(a, at, mac, front + data);
    ExtendPad(a, at + |mac|, padLen, front + data + mac);
    end := at + |mac| + padLen as int;
    Joins(front, data, mac, Padding(padLen));
    var fragment := Take(a, from, end, front, Fragment(c, h, typ, data));
    var (ctx, sealed) := Encrypt(c, h.suite, h.ctx, fragment);
    Extend(a, from, sealed, front);
    h1 := h.(ctx := ctx, counter := Tick(h));
  }

  // What sealing a record does to the session.
  function Sealed(s: Sess, typ: byte, data: Octets, h: Half): Sess {
    (if typ == HANDSHAKE then Hash(s, data) else s).(en := h)
  }

  // What the record writer does to a session and puts out, in terms of the sealed data.
  lemma RecordIs(c: Crypto, s: Sess, typ: byte, data: Octets, free: int)
    requires Sound(c)
    ensures var (h, sealed) := SealData(c, s.en, typ, data);
            WriteRecord(c, s, typ, data, free)
            == if free < WireSize(s, |data|) then Full(s, [])
               else Wrote(Sealed(s, typ, data, h),
                          Header(typ, s.ver.maj, s.ver.min, WireSize(s, |data|) - HEADER) + sealed)
    ensures var (h, sealed) := SealData(c, s.en, typ, data);
            |sealed| + HEADER == WireSize(s, |data|)
  {
    SealIs(c, s.en, typ, s.ver.maj, s.ver.min, data);
    hide Sound, Seal, SealData, Header, Overhead;
  }

  class Session {
    const crypto: Crypto
    const env: Env
    // Flags, handshake state, versions, protection of either direction, secrets.
    var ssl: Sess

    ghost predicate Valid() {
      Sound(crypto)
    }

    lemma Works()
      requires Valid()
      ensures Sound(crypto)
    {
    }

    constructor Server(c: Crypto, e: Env)
      requires Sound(c)
      ensures Valid() && ssl == NewServer() && crypto == c && env == e
    {
      crypto, env, ssl := c, e, NewServer();
    }

    constructor Client(c: Crypto, e: Env, session: Option<SessionId>)
      requires Sound(c)
      ensures Valid() && ssl == NewClient(session) && crypto == c && env == e
    {
      crypto, env, ssl := c, e, NewClient(session);
    }

    // -------------------------------------------------------------------------
    // One record
    // -------------------------------------------------------------------------

    // Sizes the record and writes its headers at c, if there is room up to the buffer's end.
    method WriteRecordHeader(typ: byte, hsType: byte, bodyLen: nat, ghost before: Octets, out: Buffer)
      returns (room: bool, messageSize: nat, padLen: byte, c: nat)
      requires Valid() && out.Valid() && Holds(out.buf, before) && |before| == out.end
      modifies out.buf
      ensures var head: Octets := if typ == HANDSHAKE then [hsType] + Be3(bodyLen) else [];
              && messageSize == WireSize(ssl, |head| + bodyLen)
              && padLen as int == PadLen(|head| + bodyLen + ssl.en.suite.MacSize(), ssl.en.suite.BlockSize())
              && room == (out.Free() >= messageSize)
              && (if room then c == out.end + HEADER + |head|
                  && Holds(out.buf, before + Header(typ, ssl.ver.maj, ssl.ver.min, messageSize - HEADER) + head)
                  else Holds(out.buf, before))
    {
      hide Be3, Header, Holds;
      var head: Octets := if typ == HANDSHAKE then [hsType] + Be3(bodyLen) else [];
      messageSize, padLen, c := HEADER + |head| + bodyLen, 0, out.end;
      // The secure-write flag goes up with the suite whose sizes these are.
      if !ssl.en.suite.NullSuite? {
        messageSize := messageSize + ssl.en.suite.MacSize();
        padLen := PadLen(messageSize - HEADER, ssl.en.suite.BlockSize());
        messageSize := messageSize + padLen as int;
      }
      room := out.Free() >= messageSize;
      if room {
        var info := Header(typ, ssl.ver.maj, ssl.ver.min, messageSize - HEADER);
        Extend(out.buf, c, info, before);
        c := c + HEADER;
        Extend(out.buf, c, head, before + info);
        c := c + |head|;
      }
    }

    // Hashes handshake data, seals the record's data in place and moves the buffer's end behind
    // it, unless the record came out at another size than announced.
    method EncryptRecord(typ: byte, messageSize: nat, padLen: byte, encryptStart: nat, at: nat, ghost front: Octets,
                         ghost data: Octets, out: Buffer)
      returns (ok: bool)
      requires Valid() && out.Valid() && Holds(out.buf, front + data) && |front| == encryptStart
               && encryptStart + |data| == at
      requires out.start <= encryptStart && at + Overhead(ssl.en.suite, |data|) <= out.buf.Length
      requires padLen as int == PadLen(|data| + ssl.en.suite.MacSize(), ssl.en.suite.BlockSize())
      modifies this, out`end, out.buf
      ensures out.Valid()
      ensures var (h, sealed) := SealData(crypto, old(ssl.en), typ, data);
              && ssl == Sealed(old(ssl), typ, data, h)
              && ok == (encryptStart + |sealed| == old(out.end) + messageSize)
              && out.end == (if ok then encryptStart + |sealed| else old(out.end))
              && Holds(out.buf, front + sealed)
    {
      hide Sound, SealData, Overhead, PadLen;
      var was := ssl;
      if typ == HANDSHAKE {
        var hashed := Take(out.buf, encryptStart, at, front, data);
        ssl := Hash(ssl, hashed);
      }
      var h, c := SealInPlace(crypto, was.en, typ, padLen, encryptStart, at, front, data, out.buf);
      ssl := ssl.(en := h);
      ok := c - out.end == messageSize;
      if ok {
        out.end := c;
      }
    }

    // A whole record: headers, body, protection. out grows by exactly the record, or not at all.
    method PutRecord(typ: byte, hsType: byte, body: Octets, out: Buffer) returns (status: Status)
      requires Valid() && out.Valid()
      modifies this, out`end, out.buf
      ensures out.Valid()
      ensures var data := if typ == HANDSHAKE then HandshakeData(hsType, body) else body;
              Outcome(WriteRecord(crypto, old(ssl), typ, data, old(out.State()).1), status, ssl, old(out.State()),
                      out.State())
      ensures status != Fatal
    {
      ghost var before := out.buf[..out.end];
      ghost var data := if typ == HANDSHAKE then HandshakeData(hsType, body) else body;
      ghost var head: Octets := if typ == HANDSHAKE then [hsType] + Be3(|body|) else [];
      HeadedData(typ, hsType, body);
      ContentsIs(out, before);
      RecordRoom(crypto, ssl, typ, data, out.Free());
      hide Sound, WriteRecord, Be3, Overhead, PadLen, Header, HandshakeData, Holds, Buffer.Contents;
      var room, messageSize, padLen, c := WriteRecordHeader(typ, hsType, |body|, before, out);
      if !room {
        ContentsIs(out, before);
        assert before[out.start..] + [] == before[out.start..];
        return NoSpace;
      }
      PutBody(typ, body, messageSize, padLen, c, before, head, out);
      return Fine;
    }

    // Behind the headers: the body, then its protection.
    method PutBody(typ: byte, body: Octets, messageSize: nat, padLen: byte, c: nat, ghost before: Octets,
                   ghost head: Octets, out: Buffer)
      requires Valid() && out.Valid() && |before| == out.end && c == out.end + HEADER + |head|
      requires messageSize == WireSize(ssl, |head + body|) <= out.Free()
      requires padLen as int == PadLen(|head + body| + ssl.en.suite.MacSize(), ssl.en.suite.BlockSize())
      requires Holds(out.buf, before + Header(typ, ssl.ver.maj, ssl.ver.min, messageSize - HEADER) + head)
      modifies this, out`end, out.buf
      ensures out.Valid()
      ensures var w := WriteRecord(crypto, old(ssl), typ, head + body, old(out.Free()));
              w.Wrote? && ssl == w.s && out.State() == (before[out.start..] + w.out, old(out.Free()) - |w.out|)
    {
      hide Sound, WriteRecord, SealData, Sealed, Overhead, PadLen, Header, Holds, Buffer.Contents;
      ghost var data := head + body;
      ghost var header := Header(typ, ssl.ver.maj, ssl.ver.min, messageSize - HEADER);
      ghost var sealed := SealData(crypto, ssl.en, typ, data).1;
      RecordIs(crypto, ssl, typ, data, out.Free());
      Extend(out.buf, c, body, before + header + head);
      Regroup(before + header, head, body);
      var ok := EncryptRecord(typ, messageSize, padLen, out.end + HEADER, c + |body|, before + header, data, out);
      ContentsIs(out, before + header + sealed);
      BeyondStart(before, header, sealed, out.start);
    }

    // -------------------------------------------------------------------------
    // Keys
    // -------------------------------------------------------------------------

    // Master secret, unless resumed, and key block, round by round.
    method Derive()
      requires Valid()
      modifies this
      ensures ssl == DeriveKeys(crypto, old(ssl))
    {
      hide Sound, Slice;
      if !ssl.flags.resumed {
        var master := new byte[48];
        FillBlock(crypto, ssl.sec.premaster, ssl.sec.clientRandom, ssl.sec.serverRandom, 3, master);
        ssl := ssl.(sec := ssl.sec.(master := master[..48], premaster := []));
      }
      var rounds := CountRounds(ssl.cipher);
      var block := new byte[16 * rounds];
      FillBlock(crypto, ssl.sec.master, ssl.sec.serverRandom, ssl.sec.clientRandom, rounds, block);
      ssl := ssl.(sec := ssl.sec.(slices := Slice(ssl.cipher, block[..16 * rounds], ssl.flags.server)));
    }

    // -------------------------------------------------------------------------
    // Messages
    // -------------------------------------------------------------------------

    method PutServerHello(out: Buffer) returns (status: Status)
      requires Valid() && out.Valid()
      modifies this, out`end, out.buf
      ensures out.Valid()
      ensures Outcome(WriteServerHello(crypto, env, old(ssl), old(out.State()).1), status, ssl, old(out.State()),
                      out.State())
    {
      hide Sound, WriteRecord, DeriveKeys, PrepareServerHello, HandshakeData, ServerHelloBody;
      var resumed := ssl.flags.resumed;
      ssl := PrepareServerHello(env, ssl);
      if ssl.sid.len > SESSION_ID_SIZE {
        assert out.Contents() + [] == out.Contents();
        return Fatal;
      }
      status := PutRecord(HANDSHAKE, 2, ServerHelloBody(ssl), out);
      if status == Fine && resumed {
        Derive();
      }
    }

    method PutCertificate(out: Buffer) returns (status: Status)
      requires Valid() && out.Valid()
      modifies this, out`end, out.buf
      ensures out.Valid()
      ensures Outcome(WriteCertificate(crypto, env, old(ssl), old(out.State()).1), status, ssl, old(out.State()),
                      out.State())
    {
      hide Sound, WriteRecord, HandshakeData, CertificateBody, WireSize;
      if [] in env.certs {
        assert out.Contents() + [] == out.Contents();
        return if out.Free() < WireSize(ssl, HS_HEADER + 3 + TotalLength(env.certs) + 3 * |env.certs|) then NoSpace
               else Fatal;
      }
      status := PutRecord(HANDSHAKE, 11, CertificateBody(env.certs), out);
    }

    method PutServerHelloDone(out: Buffer) returns (status: Status)
      requires Valid() && out.Valid()
      modifies this, out`end, out.buf
      ensures out.Valid()
      ensures Outcome(WriteServerHelloDone(crypto, old(ssl), old(out.State()).1), status, ssl, old(out.State()),
                      out.State())
    {
      hide Sound, WriteRecord;
      status := PutRecord(HANDSHAKE, 14, [], out);
    }

    method PutChangeCipherSpec(out: Buffer) returns (status: Status)
      requires Valid() && out.Valid()
      modifies this, out`end, out.buf
      ensures out.Valid()
      ensures Outcome(WriteChangeCipherSpec(crypto, old(ssl), old(out.State()).1), status, ssl, old(out.State()),
                      out.State())
    {
      hide Sound, WriteRecord, ActivateWrite;
      status := PutRecord(CHANGE_CIPHER_SPEC, 0, [1], out);
      if status == Fine {
        ssl := ActivateWrite(crypto, ssl);
      }
    }

    method PutFinished(out: Buffer) returns (status: Status)
      requires Valid() && out.Valid()
      modifies this, out`end, out.buf
      ensures out.Valid()
      ensures Outcome(WriteFinished(crypto, old(ssl), old(out.State()).1), status, ssl, old(out.State()), out.State())
    {
      hide Sound, WriteRecord, FinishedHash, HandshakeData;
      status := PutRecord(HANDSHAKE, 20, FinishedHash(crypto, ssl.sec.transcript, ssl.sec.master, ssl.flags.server),
                          out);
      if status == Fine {
        ssl := ssl.(sec := ssl.sec.(cert := None));
      }
    }

    method PutClientKeyExchange(out: Buffer) returns (status: Status)
      requires Valid() && out.Valid() && ssl.sec.cert.Some?
      modifies this, out`end, out.buf
      ensures out.Valid()
      ensures Outcome(WriteClientKeyExchange(crypto, env, old(ssl), old(out.State()).1), status, ssl, old(out.State()),
                      out.State())
    {
      hide Sound, WriteRecord, DeriveKeys, HandshakeData, WireSize;
      var pub := ssl.sec.cert.value;
      assert out.Contents() + [] == out.Contents();
      if out.Free() < WireSize(ssl, HS_HEADER + pub.size) {
        return NoSpace;
      }
      ssl := ssl.(draws := ssl.draws + 1,
                  sec := ssl.sec.(premaster := [ssl.ver.reqMaj, ssl.ver.reqMin] + env.entropy(ssl.draws,
                          PREMASTER_SIZE - 2)));
      if ssl.cipher.NullSuite? {
        return NoSpace;
      }
      status := PutRecord(HANDSHAKE, 16, crypto.encPub(pub, ssl.sec.premaster), out);
      if status == Fine {
        Derive();
      }
    }

    // -------------------------------------------------------------------------
    // Flights
    // -------------------------------------------------------------------------

    method PutFinal(out: Buffer) returns (status: Status)
      requires Valid() && out.Valid()
      modifies this, out`end, out.buf
      ensures out.Valid()
      ensures Outcome(FinalRecords(crypto, old(ssl), old(out.State()).1), status, ssl, old(out.State()), out.State())
    {
      ghost var b0 := out.State();
      hide *;
      ghost var w1, w2 := FinalIs(crypto, ssl, b0.1);
      status := PutChangeCipherSpec(out);
      Stops(w1, status, ssl, b0, out.State(), w2);
      if status == Fine {
        ghost var s1, b1 := ssl, out.State();
        status := PutFinished(out);
        Chain(w1, s1, b0, b1, w2, status, ssl, out.State());
      }
    }

    method PutHelloFlight(out: Buffer) returns (status: Status)
      requires Valid() && out.Valid()
      modifies this, out`end, out.buf
      ensures out.Valid()
      ensures Outcome(HelloRecords(crypto, env, old(ssl), old(out.State()).1), status, ssl, old(out.State()),
                      out.State())
    {
      ghost var b0 := out.State();
      hide *;
      ghost var w1, x2, w2, x3 := HelloIs(crypto, env, ssl, b0.1);
      status := PutServerHello(out);
      Stops(w1, status, ssl, b0, out.State(), x2);
      Stops(w1, status, ssl, b0, out.State(), x3);
      if status == Fine {
        ghost var s1, b1 := ssl, out.State();
        status := PutCertificate(out);
        ghost var s2, b2 := ssl, out.State();
        Chain(w1, s1, b0, b1, x2, status, s2, b2);
        Stops(w2, status, s2, b0, b2, x3);
        if status == Fine {
          status := PutServerHelloDone(out);
          Chain(w2, s2, b0, b2, x3, status, ssl, out.State());
        }
      }
    }

    method PutResumeFlight(out: Buffer) returns (status: Status)
      requires Valid() && out.Valid()
      modifies this, out`end, out.buf
      ensures out.Valid()
      ensures Outcome(ResumeRecords(crypto, env, old(ssl), old(out.State()).1), status, ssl, old(out.State()),
                      out.State())
    {
      ghost var b0 := out.State();
      hide *;
      ghost var w1, w2 := ResumeIs(crypto, env, ssl, b0.1);
      status := PutServerHello(out);
      Stops(w1, status, ssl, b0, out.State(), w2);
      if status == Fine {
        ghost var s1, b1 := ssl, out.State();
        status := PutFinal(out);
        Chain(w1, s1, b0, b1, w2, status, ssl, out.State());
      }
    }

    method PutKeyFlight(out: Buffer) returns (status: Status)
      requires Valid() && out.Valid() && ssl.sec.cert.Some?
      modifies this, out`end, out.buf
      ensures out.Valid()
      ensures Outcome(KeyRecords(crypto, env, old(ssl), old(out.State()).1), status, ssl, old(out.State()), out.State())
    {
      ghost var b0 := out.State();
      hide *;
      ghost var w1, w2 := KeyIs(crypto, env, ssl, b0.1);
      status := PutClientKeyExchange(out);
      Stops(w1, status, ssl, b0, out.State(), w2);
      if status == Fine {
        ghost var s1, b1 := ssl, out.State();
        status := PutFinal(out);
        Chain(w1, s1, b0, b1, w2, status, ssl, out.State());
      }
    }

    // -------------------------------------------------------------------------
    // Answers
    // -------------------------------------------------------------------------

    // The response the session owes, as decided by its state; a failure is fatal to it.
    method PutResponse(out: Buffer) returns (status: Status)
      requires Valid() && out.Valid()
      modifies this, out`end, out.buf
      ensures out.Valid()
      ensures Outcome(EncodeResponse(crypto, env, old(ssl), old(out.State()).1), status, ssl, old(out.State()),
                      out.State())
    {
      ghost var s, b0 := ssl, out.State();
      Untouched(b0);
      hide Sound, WriteRecord, HelloRecords, FinalRecords, ResumeRecords, KeyRecords, Outcome;
      hide HelloFlightSize, FinalFlightSize, ResumeFlightSize, KeyFlightSize, Flagged, Buffer.Contents;
      if ssl.err != ALERT_NONE {
        status := PutRecord(ALERT, 0, [FATAL, ssl.err], out);
        return;
      }
      ghost var w;
      if ssl.hsState == HS_CLIENT_KEY_EXCHANGE {
        if out.Free() < HelloFlightSize(env, ssl) {
          return NoSpace;
        }
        w := HelloRecords(crypto, env, s, b0.1);
        status := PutHelloFlight(out);
      } else if ssl.hsState == HS_DONE {
        if out.Free() < FinalFlightSize(ssl) {
          return NoSpace;
        }
        w := FinalRecords(crypto, s, b0.1);
        status := PutFinal(out);
      } else if ssl.hsState == HS_FINISHED && ssl.flags.server {
        if out.Free() < ResumeFlightSize(ssl) {
          return NoSpace;
        }
        w := ResumeRecords(crypto, env, s, b0.1);
        status := PutResumeFlight(out);
      } else if ssl.hsState == HS_FINISHED && ssl.sec.cert.Some? {
        if out.Free() < KeyFlightSize(ssl, ssl.sec.cert.value.size) {
          return NoSpace;
        }
        w := KeyRecords(crypto, env, s, b0.1);
        status := PutKeyFlight(out);
      } else {
        w := Failed(s, []);
        status := Fatal;
      }
      FlaggedOutcome(w, status, ssl, b0, out.State());
      if status == Fatal {
        ssl := ssl.(flags := ssl.flags.(error := true));
      }
    }

    method PutOffer(suites: Octets, out: Buffer) returns (status: Status)
      requires Valid() && out.Valid() && ssl.sid.len <= SESSION_ID_SIZE
      modifies this, out`end, out.buf
      ensures out.Valid()
      ensures Outcome(OfferSuites(crypto, env, old(ssl), suites, old(out.State()).1), status, ssl, old(out.State()),
                      out.State())
    {
      hide Sound, WriteRecord, HandshakeData, ClientHelloBody, Buffer.Contents;
      var before := ssl;
      ssl := ssl.(draws := ssl.draws + 1, sec := ssl.sec.(clientRandom := env.entropy(ssl.draws, RANDOM_SIZE)));
      WriteRecordSize(crypto, ssl, HANDSHAKE, HandshakeData(1, ClientHelloBody(ssl, suites)), out.Free());
      status := PutRecord(HANDSHAKE, 1, ClientHelloBody(ssl, suites), out);
      ssl := if status == Fine then ssl.(hsState := HS_SERVER_HELLO) else before;
    }

    method PutClientHello(cipherSpec: nat, out: Buffer) returns (status: Status)
      requires Valid() && out.Valid()
      modifies this, out`end, out.buf
      ensures out.Valid()
      ensures Outcome(EncodeClientHello(crypto, env, old(ssl), cipherSpec, old(out.State()).1), status, ssl,
                      old(out.State()), out.State())
    {
      Untouched(out.State());
      hide Sound, OfferSuites, GetCipherSpec, CipherSpecList, Buffer.Contents, Outcome;
      if ssl.flags.error || ssl.flags.closed || ssl.flags.server || ssl.sid.len > SESSION_ID_SIZE {
        return Fatal;
      }
      if ssl.hsState != HS_SERVER_HELLO && ssl.hsState != HS_DONE && ssl.hsState != HS_HELLO_REQUEST {
        return Fatal;
      }
      ssl := ssl.(flags := if ssl.sid.len > 0 then ssl.flags else ssl.flags.(resumed := false),
                  sec := ssl.sec.(transcript := []));
      var spec := if ssl.sid.len > 0 then ssl.cipher.Id() else cipherSpec;
      if spec != 0 && GetCipherSpec(spec).None? {
        return Fatal;
      }
      status := PutOffer(if spec == 0 then CipherSpecList() else Be2(2) + Be2(spec), out);
    }

    // -------------------------------------------------------------------------
    // The calls of the application
    // -------------------------------------------------------------------------

    method EncodeData(payload: Octets, out: Buffer) returns (status: Status)
      requires Valid() && out.Valid()
      modifies this, out`end, out.buf
      ensures out.Valid()
      ensures Outcome(Encode(crypto, old(ssl), payload, old(out.State()).1), status, ssl, old(out.State()), out.State())
    {
      Untouched(out.State());
      hide Sound, WriteRecord, Buffer.Contents, Outcome;
      if ssl.flags.error || ssl.flags.closed || ssl.hsState != HS_DONE || HEADER + |payload| > MAX_BUF {
        return Fatal;
      }
      status := PutRecord(APPLICATION_DATA, 0, payload, out);
    }

    method CloseAlert(out: Buffer) returns (status: Status)
      requires Valid() && out.Valid()
      modifies this, out`end, out.buf
      ensures out.Valid()
      ensures Outcome(EncodeClosureAlert(crypto, old(ssl), old(out.State()).1), status, ssl, old(out.State()),
                      out.State())
    {
      Untouched(out.State());
      hide Sound, WriteRecord, Buffer.Contents, Outcome;
      if ssl.flags.error {
        return Fatal;
      }
      status := PutRecord(ALERT, 0, [WARNING, CLOSE_NOTIFY], out);
    }

    // -------------------------------------------------------------------------
    // Decoding
    // -------------------------------------------------------------------------

    // All messages of one record, in a loop.
    method ParseHandshake(recMaj: byte, data: Octets) returns (done: bool, respond: bool)
      requires Valid() && data != []
      modifies this
      ensures var p := Messages(crypto, env, old(ssl), recMaj, data, data);
              ssl == p.s && done == p.Accepted? && (done ==> respond == p.respond)
    {
      ghost var s := ssl;
      var at := 0;
      respond := false;
      hide Sound, Message;
      assert data[0..] == data;
      while true
        invariant at < |data|
        invariant Messages(crypto, env, s, recMaj, data, data)
                  == Prepended(at, respond, Messages(crypto, env, ssl, recMaj, data[at..], data))
        decreases |data| - at
      {
        var p := Message(crypto, env, ssl, recMaj, data[at..], data);
        ssl := p.s;
        if p.Rejected? {
          return false, respond;
        }
        respond := respond || p.respond;
        if p.used >= |data| - at {
          return true, respond;
        }
        assert data[at..][p.used..] == data[at + p.used..];
        at := at + p.used;
      }
    }

    // The tail of the decoder: the owed answer goes out, or is put off until there is room.
    method PutAnswer(ghost used: nat, out: Buffer) returns (report: Report)
      requires Valid() && out.Valid()
      modifies this, out`end, out.buf
      ensures out.Valid()
      ensures Answer(crypto, env, old(ssl), used, old(out.Free())) == Return(ssl, used, report)
      ensures out.Contents() == old(out.Contents()) + Produced(report)
    {
      ghost var b0 := out.State();
      var before := out.Contents();
      ghost var w := if ssl.hsState == HS_HELLO_REQUEST then EncodeClientHello(crypto, env, ssl, ssl.cipher.Id(), b0.1)
                     else EncodeResponse(crypto, env, ssl, b0.1);
      hide Sound, EncodeResponse, EncodeClientHello, Buffer.Contents, Settle, Outcome, Produced;
      var status;
      if ssl.hsState == HS_HELLO_REQUEST {
        status := PutClientHello(ssl.cipher.Id(), out);
      } else {
        status := PutResponse(out);
      }
      Settled(w, status, ssl, b0, out.State(), used);
      var sent := out.Contents()[|before|..];
      if status == Fine && ssl.err != ALERT_NONE {
        ssl := ssl.(flags := ssl.flags.(error := true));
        return Error(ssl.err, sent);
      } else if status == Fine {
        return Respond(sent);
      } else if status == NoSpace {
        ssl := ssl.(flags := ssl.flags.(needEncode := true));
        return NoRoom(sent);
      } else {
        return Error(ALERT_NONE, sent);
      }
    }

    // -------------------------------------------------------------------------
    // One record taken off the input
    // -------------------------------------------------------------------------

    method TakeChangeCipherSpec(data: Octets, used: nat, input: Buffer, out: Buffer)
      returns (again: bool, report: Report)
      requires Valid() && input.Valid() && input.start + used <= input.end && out.Valid() && input != out
               && input.buf != out.buf
      modifies this, input`start, out`end, out.buf
      ensures input.Valid() && out.Valid()
      ensures Passed(HandleChangeCipherSpec(crypto, env, old(ssl), data, used, old(out.Free())), old(ssl), again,
                     report, ssl,
                     input.start - old(input.start), old(out.Contents()), out.Contents())
    {
      hide Sound, Answer, ActivateRead, Produced, Buffer.Contents;
      if data == [] || data[0] != 1 {
        ssl := Fail(ssl, ILLEGAL_PARAMETER);
      } else if ssl.hsState != HS_FINISHED {
        ssl := Fail(ssl, UNEXPECTED_MESSAGE);
      } else {
        ssl := ActivateRead(crypto, ssl);
        input.start := input.start + used;
        return true, Success;
      }
      again := false;
      report := PutAnswer(0, out);
    }

    method TakeAlert(data: Octets, out: Buffer) returns (report: Report)
      requires Valid() && out.Valid()
      modifies this, out`end, out.buf
      ensures out.Valid()
      ensures Passed(HandleAlert(crypto, env, old(ssl), data, old(out.Free())), old(ssl), false, report, ssl, 0,
                     old(out.Contents()), out.Contents())
    {
      ghost var before := out.Contents();
      assert before + [] == before;
      hide Sound, Answer, Buffer.Contents;
      if |data| < 2 {
        ssl := Fail(ssl, ILLEGAL_PARAMETER);
        report := PutAnswer(0, out);
        return;
      }
      var flags := ssl.flags;
      if data[0] == FATAL {
        flags := flags.(error := true);
      }
      if data[1] == CLOSE_NOTIFY {
        flags := flags.(closed := true);
      }
      ssl := ssl.(flags := flags);
      return Alerted(data[0], data[1]);
    }

    method TakeHandshake(recMaj: byte, data: Octets, used: nat, input: Buffer, out: Buffer) returns (report: Report)
      requires Valid() && input.Valid() && input.start + used <= input.end && out.Valid() && input != out
               && input.buf != out.buf
      modifies this, input`start, out`end, out.buf
      ensures input.Valid() && out.Valid()
      ensures Passed(HandleHandshake(crypto, env, old(ssl), recMaj, data, used, old(out.Free())), old(ssl), false,
                     report, ssl,
                     input.start - old(input.start), old(out.Contents()), out.Contents())
    {
      ghost var before := out.Contents();
      assert before + [] == before;
      hide Sound, Answer, Messages, Buffer.Contents;
      if data == [] {
        ssl := Fail(ssl, ILLEGAL_PARAMETER);
        report := PutAnswer(0, out);
        return;
      }
      var done, respond := ParseHandshake(recMaj, data);
      if !done {
        if ssl.err == ALERT_NONE {
          ssl := Fail(ssl, HANDSHAKE_FAILURE);
        }
        report := PutAnswer(0, out);
        return;
      }
      input.start := input.start + used;
      if respond {
        report := PutAnswer(used, out);
      } else {
        report := Success;
      }
    }

    method TakeApplication(data: Octets, used: nat, input: Buffer, out: Buffer) returns (again: bool, report: Report)
      requires Valid() && input.Valid() && input.start + used <= input.end && out.Valid() && input != out
               && input.buf != out.buf
      requires |data| <= out.Free()
      modifies this, input`start, out`end, out.buf
      ensures input.Valid() && out.Valid()
      ensures Passed(HandleApplication(crypto, env, old(ssl), data, used, old(out.Free())), old(ssl), again, report,
                     ssl,
                     input.start - old(input.start), old(out.Contents()), out.Contents())
    {
      hide Sound, Answer, Produced, Buffer.Contents;
      again := false;
      if (ssl.hsState != HS_DONE && ssl.hsState != HS_SERVER_HELLO) || !ssl.flags.readSecure {
        ssl := Fail(ssl, UNEXPECTED_MESSAGE);
        report := PutAnswer(0, out);
        return;
      }
      input.start := input.start + used;
      if data == [] {
        ssl := ssl.(ignored := ssl.ignored + 1);
        if ssl.ignored <= MAX_IGNORED {
          return true, Success;
        }
        ssl := Fail(ssl, UNEXPECTED_MESSAGE);
        report := PutAnswer(used, out);
        return;
      }
      Deliver(data, out);
      report := Data(data);
      ProducedData(data);
    }

    // The payload stays in the out buffer, where it was decrypted to.
    method Deliver(data: Octets, out: Buffer)
      requires out.Valid() && |data| <= out.Free()
      modifies out`end, out.buf
      ensures out.Valid() && out.Contents() == old(out.Contents()) + data
    {
      ghost var before := out.buf[..out.end];
      Extend(out.buf, out.end, data, before);
      out.end := out.end + |data|;
      ContentsIs(out, before + data);
      assert (before + data)[out.start..] == before[out.start..] + data;
    }

    method TakeData(rec: Rec, data: Octets, used: nat, input: Buffer, out: Buffer) returns (again: bool, report: Report)
      requires Valid() && input.Valid() && input.start + used <= input.end && out.Valid() && input != out
               && input.buf != out.buf
      requires |data| <= out.Free()
      modifies this, input`start, out`end, out.buf
      ensures input.Valid() && out.Valid()
      ensures Passed(Handle(crypto, env, old(ssl), rec, data, used, old(out.Free())), old(ssl), again, report, ssl,
                     input.start - old(input.start), old(out.Contents()), out.Contents())
    {
      hide Sound, Buffer.Contents, HandleChangeCipherSpec, HandleAlert, HandleHandshake, HandleApplication, Passed;
      again := false;
      if rec.typ == CHANGE_CIPHER_SPEC {
        again, report := TakeChangeCipherSpec(data, used, input, out);
      } else if rec.typ == ALERT {
        report := TakeAlert(data, out);
      } else if rec.typ == HANDSHAKE {
        report := TakeHandshake(rec.maj, data, used, input, out);
      } else {
        again, report := TakeApplication(data, used, input, out);
      }
    }

    // One pass of the loop: whether it goes on, or what is reported. Payload and answers are
    // left in out; the input moves past the record when it is taken.
    method TakeRecord(input: Buffer, out: Buffer) returns (again: bool, report: Report)
      requires Valid() && input.Valid() && out.Valid() && input != out && input.buf != out.buf
      modifies this, input`start, out`end, out.buf
      ensures input.Valid() && out.Valid()
      ensures Passed(Step(crypto, env, old(ssl), old(input.Contents()), old(out.Free())), old(ssl), again, report, ssl,
                     input.start - old(input.start), old(out.Contents()), out.Contents())
    {
      var b := input.Contents();
      assert |b| == input.end - input.start;
      OpenBound(crypto, AsReader(ssl), b, out.Free());
      HandleWaits(crypto, env);
      hide Sound, Open, Answer, Buffer.Contents, Handle, Produced;
      again := false;
      if b == [] {
        return false, Success;
      }
      match Open(crypto, AsReader(ssl), b, out.Free())
      case Short => return false, Partial;
      case Tight => return false, NoRoom([]);
      case Bad(alert, half, _) =>
        ssl := Fail(ssl, alert).(de := half);
        report := PutAnswer(0, out);
      case Plain(rec, data, half, used) =>
        ssl := ssl.(de := half);
        again, report := TakeData(rec, data, used, input, out);
    }

    // Records until one of them returns.
    method TakeRecords(input: Buffer, out: Buffer) returns (report: Report)
      requires Valid() && input.Valid() && out.Valid() && input != out && input.buf != out.buf
      modifies this, input`start, out`end, out.buf
      ensures input.Valid() && out.Valid()
      ensures input.start >= old(input.start)
      ensures Ended(crypto, env, old(ssl), old(input.Contents()), old(out.Free()), input.start - old(input.start), ssl,
                    report)
      ensures out.Contents() == old(out.Contents()) + Produced(report)
    {
      hide *;
      Works();
      Sized(input);
      InputIs(input, input.buf[..input.end]);
      Sized(out);
      ghost var s, b, free, start, produced := ssl, input.Contents(), out.Free(), input.start, out.Contents();
      ghost var all := input.buf[..input.end];
      ReachedStart(crypto, env, s, b, free);
      var again := true;
      report := Success;
      while again
        invariant input.Valid() && out.Valid() && start <= input.start <= input.end == |all|
                  && input.Contents() == all[input.start..]
        invariant again ==>
                    out.Contents() == produced && out.Free() == free
                        && Reached(crypto, env, s, b, free, input.start - start, ssl, all[input.start..])
        invariant !again ==>
                    Ended(crypto, env, s, b, free, input.start - start, ssl, report)
                        && out.Contents() == produced + Produced(report)
        decreases again, input.end - input.start
      {
        ghost var s1, at := ssl, input.start;
        again, report := TakeRecord(input, out);
        InputIs(input, all);
        Sized(out);
        PassTaken(crypto, env, s, b, at - start, s1, all, at, free, again, report, ssl, input.start - at, produced,
                  out.Contents());
      }
    }

    // One call of the decoder.
    method DecodeInput(input: Buffer, out: Buffer) returns (report: Report)
      requires Valid() && input.Valid() && out.Valid() && input != out && input.buf != out.buf
      modifies this, input`start, out`end, out.buf
      ensures input.Valid() && out.Valid()
      ensures out.Contents() == old(out.Contents()) + Produced(report)
      ensures (ssl, input.start - old(input.start), report)
              == Decode(crypto, env, old(ssl), old(input.Contents()), old(out.Free()))
    {
      hide *;
      Works();
      ghost var s, b, free, start := ssl, input.Contents(), out.Free(), input.start;
      if ssl.flags.error || ssl.flags.closed {
        DecodeDead(crypto, env, s, b, free, out.Contents());
        return Error(ALERT_NONE, []);
      }
      if ssl.flags.needEncode {
        ssl := ssl.(flags := ssl.flags.(needEncode := false));
        report := PutAnswer(0, out);
        DecodeEncodes(crypto, env, s, b, free, ssl, report);
      } else {
        report := TakeRecords(input, out);
        DecodeTakes(crypto, env, s, b, free, input.start - start, ssl, report);
      }
    }
  }

  lemma DecodeDead(c: Crypto, env: Env, s: Sess, b: Octets, free: nat, before: Octets)
    requires Sound(c) && (s.flags.error || s.flags.closed)
    ensures Decode(c, env, s, b, free) == (s, 0, Error(ALERT_NONE, []))
    ensures before == before + Produced(Error(ALERT_NONE, []))
  {
    hide Sound, DecodeLoop, Answer;
  }

  lemma DecodeEncodes(c: Crypto, env: Env, s: Sess, b: Octets, free: nat, s1: Sess, report: Report)
    requires Sound(c) && !s.flags.error && !s.flags.closed && s.flags.needEncode
    requires Answer(c, env, s.(flags := s.flags.(needEncode := false)), 0, free) == Return(s1, 0, report)
    ensures Decode(c, env, s, b, free) == (s1, 0, report)
  {
    hide Sound, DecodeLoop, Answer;
  }

  lemma DecodeTakes(c: Crypto, env: Env, s: Sess, b: Octets, free: nat, n: nat, s1: Sess, report: Report)
    requires Sound(c) && !s.flags.error && !s.flags.closed && !s.flags.needEncode
    requires Ended(c, env, s, b, free, n, s1, report)
    ensures Decode(c, env, s, b, free) == (s1, n, report)
  {
    hide Sound, DecodeLoop, Answer;
  }

  // A record always loops or returns; waiting puts nothing out.
  lemma HandleWaits(c: Crypto, env: Env)
    requires Sound(c)
    ensures forall s: Sess, rec: Rec, data: Octets, used: nat,
            free: nat :: !Handle(c, env, s, rec, data, used, free).Wait?
  {
    forall s: Sess, rec: Rec, data: Octets, used: nat,
        free: nat ensures !Handle(c, env, s, rec, data, used, free).Wait? {
      HandleUses(c, env, s, rec, data, used, free);
    }
  }

  lemma WaitProduces(c: Crypto, env: Env, s: Sess, b: Octets, free: nat, x: Octets)
    requires Sound(c)
    ensures var p := Step(c, env, s, b, free); p.Wait? ==> x + Produced(p.report) == x
  {
    hide Open, Handle, Answer;
    assert x + [] == x;
    HandleWaits(c, env);
    forall s1: Sess ensures Answer(c, env, s1, 0, free).Return? { AnswerReturns(c, env, s1, 0, free); }
  }

  lemma LoopEnds(c: Crypto, env: Env, s: Sess, b: Octets, free: nat)
    requires Sound(c) && !Step(c, env, s, b, free).Loop?
    ensures var p := Step(c, env, s, b, free);
            DecodeLoop(c, env, s, b, free) == if p.Wait? then (s, 0, p.report) else (p.s, p.used, p.report)
  {
    hide Step, Sound;
  }

  lemma LoopGoesOn(c: Crypto, env: Env, s: Sess, b: Octets, free: nat)
    requires Sound(c) && Step(c, env, s, b, free).Loop? && Step(c, env, s, b, free).used <= |b|
    ensures var p := Step(c, env, s, b, free);
            DecodeLoop(c, env, s, b, free) == Moved(p.used, DecodeLoop(c, env, p.s, b[p.used..], free))
  {
    hide Step, Sound;
  }

  // How far a call has come: n bytes of its input taken and more to do, or done.
  ghost predicate Reached(c: Crypto, env: Env, s: Sess, b: Octets, free: nat, n: nat, s1: Sess, rest: Octets)
    requires Sound(c)
  {
    DecodeLoop(c, env, s, b, free) == Moved(n, DecodeLoop(c, env, s1, rest, free))
  }

  ghost predicate Ended(c: Crypto, env: Env, s: Sess, b: Octets, free: nat, n: nat, s1: Sess, report: Report)
    requires Sound(c)
  {
    DecodeLoop(c, env, s, b, free) == (s1, n, report)
  }

  lemma ReachedStart(c: Crypto, env: Env, s: Sess, b: Octets, free: nat)
    requires Sound(c)
    ensures Reached(c, env, s, b, free, 0, s, b)
  {
    hide DecodeLoop, Sound;
  }

  // What one pass, taken at position at of the input, means for the whole call.
  lemma PassTaken(c: Crypto, env: Env, s0: Sess, b0: Octets, n: nat, s: Sess, all: Octets, at: nat, free: nat,
                  again: bool, report: Report, s1: Sess, moved: int, before: Octets, after: Octets)
    requires Sound(c) && at <= |all| && Reached(c, env, s0, b0, free, n, s, all[at..])
    requires Passed(Step(c, env, s, all[at..], free), s, again, report, s1, moved, before, after)
    ensures 0 <= moved <= |all| - at
    ensures if again then moved > 0 && after == before
            && Reached(c, env, s0, b0, free, n + moved, s1, all[at + moved..])
            else Ended(c, env, s0, b0, free, n + moved, s1, report) && after == before + Produced(report)
  {
    hide Step, Sound, Produced, DecodeLoop;
    var b := all[at..];
    StepUses(c, env, s, b, free);
    if again {
      LoopGoesOn(c, env, s, b, free);
      DropDrop(all, at, moved);
    } else {
      LoopEnds(c, env, s, b, free);
      WaitProduces(c, env, s, b, free, before);
    }
  }

  lemma Settled(w: Written, status: Status, s: Sess, b0: (Octets, nat), b1: (Octets, nat), used: nat)
    requires Outcome(w, status, s, b0, b1)
    ensures |b0.0| <= |b1.0| && b1.0 == b0.0 + w.out && b1.0[|b0.0|..] == w.out
    ensures Settle(w, used) == match status
      case Fine => if s.err != ALERT_NONE then Return(s.(flags := s.flags.(error := true)), used, Error(s.err, w.out))
                   else Return(s, used, Respond(w.out))
      case NoSpace => Return(s.(flags := s.flags.(needEncode := true)), used, NoRoom(w.out))
      case Fatal => Return(s, used, Error(ALERT_NONE, w.out))
    ensures Settle(w, used).Return? && Produced(Settle(w, used).report) == w.out
  {
  }

  // How one pass of the decoder shows in the session, the input and the out buffer.
  ghost predicate Passed(p: Pass, s0: Sess, again: bool, report: Report, s: Sess, moved: int, before: Octets,
                         after: Octets) {
    match p
    case Wait(r) => !again && report == r && s == s0 && moved == 0 && after == before
    case Loop(s1, used) => again && s == s1 && moved == used && after == before
    case Return(s1, used, r) => !again && report == r && s == s1 && moved == used && after == before + Produced(r)
  }

  function Moved(n: nat, r: (Sess, nat, Report)): (Sess, nat, Report) {
    (r.0, n + r.1, r.2)
  }

  lemma InputIs(input: Buffer, all: Octets)
    requires input.Valid() && all == input.buf[..input.end]
    ensures |all| == input.end && input.start <= input.end && input.Contents() == all[input.start..]
  {
  }

  lemma Sized(b: Buffer)
    requires b.Valid()
    ensures b.start <= b.end <= b.buf.Length && b.Free() == b.buf.Length - b.start - |b.Contents()|
  {
  }

  lemma DropDrop(s: Octets, m: nat, n: nat)
    requires m + n <= |s|
    ensures s[m..][n..] == s[m + n..]
  {
  }

  lemma ProducedData(data: Octets)
    ensures Produced(Data(data)) == data
  {
  }

  // What a call leaves in the out buffer.
  function Produced(report: Report): Octets {
    match report
    case NoRoom(out) => out
    case Respond(out) => out
    case Data(payload) => payload
    case Error(_, out) => out
    case _ => []
  }

  function Prepended(n: nat, respond: bool, p: Parsed): Parsed {
    if p.Rejected? then p else Accepted(p.s, n + p.used, respond || p.respond)
  }

  lemma Untouched(b: (Octets, nat))
    ensures forall s: Sess :: Outcome(Full(s, []), NoSpace, s, b, b) && Outcome(Failed(s, []), Fatal, s, b, b)
  {
    assert b.0 + [] == b.0;
  }

  lemma FlaggedOutcome(w: Written, status: Status, s: Sess, b0: (Octets, nat), b1: (Octets, nat))
    requires Outcome(w, status, s, b0, b1)
    ensures Outcome(Flagged(w), status, if status == Fatal then s.(flags := s.flags.(error := true)) else s, b0, b1)
  {
  }

  // Each flight as a chain of writers, each in the space its predecessor left.
  lemma FinalIs(c: Crypto, s: Sess, free: nat) returns (w1: Written, w2: Written)
    ensures w1 == WriteChangeCipherSpec(c, s, free) && w2 == WriteFinished(c, w1.s, free - |w1.out|)
    ensures FinalRecords(c, s, free) == Append(w1, w2)
  {
    hide WriteChangeCipherSpec, WriteFinished;
    w1 := WriteChangeCipherSpec(c, s, free);
    w2 := WriteFinished(c, w1.s, free - |w1.out|);
  }

  lemma HelloIs(c: Crypto, env: Env, s: Sess, free: nat) returns (w1: Written, x2: Written, w2: Written, x3: Written)
    requires Sound(c)
    ensures w1 == WriteServerHello(c, env, s, free) && x2 == WriteCertificate(c, env, w1.s, free - |w1.out|)
    ensures w2 == Append(w1, x2) && x3 == WriteServerHelloDone(c, w2.s, free - |w2.out|)
    ensures HelloRecords(c, env, s, free) == Append(w2, x3)
  {
    hide WriteServerHello, WriteCertificate, WriteServerHelloDone;
    w1 := WriteServerHello(c, env, s, free);
    x2 := WriteCertificate(c, env, w1.s, free - |w1.out|);
    w2 := Append(w1, x2);
    x3 := WriteServerHelloDone(c, w2.s, free - |w2.out|);
  }

  lemma ResumeIs(c: Crypto, env: Env, s: Sess, free: nat) returns (w1: Written, w2: Written)
    requires Sound(c)
    ensures w1 == WriteServerHello(c, env, s, free) && w2 == FinalRecords(c, w1.s, free - |w1.out|)
    ensures ResumeRecords(c, env, s, free) == Append(w1, w2)
  {
    hide WriteServerHello, FinalRecords;
    w1 := WriteServerHello(c, env, s, free);
    w2 := FinalRecords(c, w1.s, free - |w1.out|);
  }

  lemma KeyIs(c: Crypto, env: Env, s: Sess, free: nat) returns (w1: Written, w2: Written)
    requires Sound(c) && s.sec.cert.Some?
    ensures w1 == WriteClientKeyExchange(c, env, s, free) && w2 == FinalRecords(c, w1.s, free - |w1.out|)
    ensures KeyRecords(c, env, s, free) == Append(w1, w2)
  {
    hide WriteClientKeyExchange, FinalRecords;
    w1 := WriteClientKeyExchange(c, env, s, free);
    w2 := FinalRecords(c, w1.s, free - |w1.out|);
  }

  // A writer that fails ends its flight; otherwise the next one sees what it left.
  lemma Stops(w1: Written, status: Status, s1: Sess, b0: (Octets, nat), b1: (Octets, nat), w2: Written)
    requires Outcome(w1, status, s1, b0, b1)
    ensures if status == Fine then s1 == w1.s && b1.1 == b0.1 - |w1.out| else Append(w1, w2) == w1
  {
  }

  // Two writers one after the other.
  lemma Chain(w1: Written, s1: Sess, b0: (Octets, nat), b1: (Octets, nat), w2: Written, status: Status, s2: Sess,
              b2: (Octets, nat))
    requires Outcome(w1, Fine, s1, b0, b1) && Outcome(w2, status, s2, b1, b2)
    ensures Outcome(Append(w1, w2), status, s2, b0, b2)
  {
    assert b0.0 + w1.out + w2.out == b0.0 + (w1.out + w2.out);
  }

  lemma RecordRoom(c: Crypto, s: Sess, typ: byte, data: Octets, free: int)
    ensures free < WireSize(s, |data|) ==> WriteRecord(c, s, typ, data, free) == Full(s, [])
  {
  }

  // How the pieces of a record lie behind what the buffer held.
  lemma ContentsIs(out: Buffer, s: Octets)
    requires out.Valid() && Holds(out.buf, s) && |s| == out.end
    ensures out.Contents() == s[out.start..]
  {
  }

  lemma HeadedData(typ: byte, hsType: byte, body: Octets)
    ensures var head: Octets := if typ == HANDSHAKE then [hsType] + Be3(|body|) else [];
            var data := if typ == HANDSHAKE then HandshakeData(hsType, body) else body;
            data == head + body && |data| == |head| + |body|
  {
    hide Be3;
  }

  lemma Regroup(front: Octets, x: Octets, y: Octets)
    ensures front + x + y == front + (x + y)
  {
  }

  lemma BeyondStart(before: Octets, header: Octets, sealed: Octets, start: nat)
    requires start <= |before|
    ensures (before + header + sealed)[start..] == before[start..] + (header + sealed)
  {
  }
}
