/** The size test in front of each flight, against the bytes the flight really writes. */
module SslFlightSize {
  import opened Bytes
  import opened SslCrypto
  import opened SslRecord
  import opened SslState
  import opened SslFlight

  // The writing side is well kept: it counts as secure exactly when a real suite is active.
  ghost predicate WriterKept(s: Sess) {
    s.flags.writeSecure == !s.en.suite.NullSuite? && s.sid.len <= SESSION_ID_SIZE
  }

  lemma ServerHelloLength(env: Env, s: Sess)
    requires GoodEnv(env) && s.sid.len <= SESSION_ID_SIZE
    ensures var s1 := PrepareServerHello(env, s);
            s1.sid.len <= SESSION_ID_SIZE && |HandshakeData(2, ServerHelloBody(s1))| == HS_HEADER + 38 + s1.sid.len
            && s1.en == s.en && s1.flags == s.flags && s1.cipher == s.cipher
  {
    hide Repeat;
  }

  // A record of one flight: it is written, and takes exactly its size.
  lemma RecordFits(c: Crypto, s: Sess, typ: byte, data: Octets, free: int)
    requires Sound(c)
    ensures var w := WriteRecord(c, s, typ, data, free);
            && (w.Wrote? <==> free >= WireSize(s, |data|))
            && !w.Failed?
            && (w.Wrote? ==> |w.out| == WireSize(s, |data|) && w.s.en.suite == s.en.suite)
            && (w.Full? ==> w == Full(s, []))
            && w.s.cipher == s.cipher && w.s.sec.cert == s.sec.cert
  {
    WriteRecordSize(c, s, typ, data, free);
    hide Sound, Seal, WireSize;
  }

  // ---------------------------------------------------------------------------
  // ServerHello, Certificate, ServerHelloDone
  // ---------------------------------------------------------------------------

  // The ServerHello record carries 42 bytes and the session id; the test allows for a full id.
  lemma HelloFlightArithmetic(suite: Suite, id: nat, chain: nat)
    requires id <= SESSION_ID_SIZE
    ensures var add := if suite.NullSuite? then 0 else 3 * suite.MacSize() + 3 * (suite.BlockSize() - 1);
            (HEADER + 42 + id + Overhead(suite, 42 + id)) + (HEADER + 4 + chain + Overhead(suite, 4 + chain))
            + (HEADER + 4 + Overhead(suite, 4))
            <= 3 * HEADER + 3 * HS_HEADER + 38 + SESSION_ID_SIZE + chain + add
  {
    if suite.TripleDesSha? {
      assert PadLen(24, 8) == 8;
      if id == 30 {
        assert PadLen(92, 8) == 4;
      } else if id == 31 {
        assert PadLen(93, 8) == 3;
      } else if id == 32 {
        assert PadLen(94, 8) == 2;
      }
    }
  }

  // Once the test passes no writer of the flight runs out of room, whatever the chain and
  // whether or not the connection is already protected.
  lemma HelloFlightFits(c: Crypto, env: Env, s: Sess, free: nat)
    requires Sound(c) && GoodEnv(env) && WriterKept(s) && !s.flags.resumed
    requires HelloFlightSize(env, s) <= free
    ensures !HelloRecords(c, env, s, free).Full?
    ensures [] !in env.certs ==> HelloRecords(c, env, s, free).Wrote?
  {
    hide Sound, WriteRecord, GoodEnv, Overhead, HandshakeData, ServerHelloBody, CertificateBody, PrepareServerHello;
    var s1 := PrepareServerHello(env, s);
    ServerHelloLength(env, s);
    var hello := HandshakeData(2, ServerHelloBody(s1));
    RecordFits(c, s1, HANDSHAKE, hello, free);
    var chain := 3 + 3 * |env.certs| + TotalLength(env.certs);
    HelloFlightArithmetic(s.en.suite, s1.sid.len, chain);
    var w1 := WriteServerHello(c, env, s, free);
    CertificateLength(env);
    var certs := HandshakeData(11, CertificateBody(env.certs));
    RecordFits(c, w1.s, HANDSHAKE, certs, free - |w1.out|);
    var w2 := Append(w1, WriteCertificate(c, env, w1.s, free - |w1.out|));
    DoneLength();
    RecordFits(c, w2.s, HANDSHAKE, HandshakeData(14, []), free - |w2.out|);
  }

  lemma CertificateLength(env: Env)
    ensures |HandshakeData(11, CertificateBody(env.certs))| == HS_HEADER + 3 + 3 * |env.certs| + TotalLength(env.certs)
  {
    EntriesLength(env.certs);
  }

  lemma DoneLength()
    ensures |HandshakeData(14, [])| == HS_HEADER
  {
  }

  // ---------------------------------------------------------------------------
  // ChangeCipherSpec, Finished
  // ---------------------------------------------------------------------------

  // What the pair really takes: the Finished goes out under the pending suite.
  function FinalBytes(s: Sess): nat {
    HEADER + 1 + Overhead(s.en.suite, 1) + HEADER + HS_HEADER + FINISHED_SIZE + Overhead(s.cipher,
            HS_HEADER + FINISHED_SIZE)
  }

  lemma FinishedLength(c: Crypto, s: Sess)
    requires Sound(c)
    ensures |HandshakeData(20, FinishedHash(c, s.sec.transcript, s.sec.master, s.flags.server))|
            == HS_HEADER + FINISHED_SIZE
  {
    FinishedHashLength(c, s.sec.transcript, s.sec.master, s.flags.server);
    hide Sound, FinishedHash;
  }

  lemma FinalRecordsFit(c: Crypto, s: Sess, free: int)
    requires Sound(c)
    ensures var w := FinalRecords(c, s, free);
            !w.Failed? && (w.Wrote? <==> free >= FinalBytes(s)) && (w.Wrote? ==> |w.out| == FinalBytes(s))
            && (w.Full? && free >= WireSize(s, 1) ==> |w.out| == WireSize(s, 1) && w.s.en.suite == s.cipher)
  {
    hide Sound, WriteRecord, Overhead, HandshakeData, FinishedHash;
    RecordFits(c, s, CHANGE_CIPHER_SPEC, [1], free);
    var w1 := WriteChangeCipherSpec(c, s, free);
    FinishedLength(c, w1.s);
    RecordFits(c, w1.s, HANDSHAKE,
               HandshakeData(20, FinishedHash(c, w1.s.sec.transcript, w1.s.sec.master, w1.s.flags.server)),
                   free - |w1.out|);
  }

  // The room a caller has to have beyond the test, from the pending suite alone.
  function PendingMargin(suite: Suite): nat {
    suite.MacSize() + suite.BlockSize()
  }

  // With that margin the closing flight always fits.
  lemma FinalFlightFits(c: Crypto, s: Sess, free: nat)
    requires Sound(c) && WriterKept(s)
    requires FinalFlightSize(s) + PendingMargin(s.cipher) <= free
    ensures FinalRecords(c, s, free).Wrote?
  {
    FinalRecordsFit(c, s, free);
    FinalArithmetic(s.en.suite, s.cipher);
    hide Sound, FinalRecords, Overhead;
  }

  lemma FinalArithmetic(suite: Suite, pending: Suite)
    ensures var add := if suite.NullSuite? then 0 else 2 * suite.MacSize() + 2 * (suite.BlockSize() - 1);
            HEADER + 1 + Overhead(suite, 1) + HEADER + HS_HEADER + FINISHED_SIZE + Overhead(pending,
                    HS_HEADER + FINISHED_SIZE)
            <= 2 * HEADER + HS_HEADER + 1 + FINISHED_SIZE + add + PendingMargin(pending)
  {
    assert PadLen(60, 8) == 4 && PadLen(21, 8) == 3;
  }

  // After the test passes on an unprotected connection, the flight fits exactly when there is also
  // room for the pending suite's MAC and padding.
  lemma FirstFinalFlightExactly(c: Crypto, s: Sess, free: nat)
    requires Sound(c) && WriterKept(s) && !s.flags.writeSecure
    requires FinalFlightSize(s) <= free
    ensures FinalRecords(c, s, free).Full? <==>
              free < FinalFlightSize(s) + Overhead(s.cipher, HS_HEADER + FINISHED_SIZE)
  {
    FinalRecordsFit(c, s, free);
    hide Sound, FinalRecords;
  }

  // A first handshake under any real suite with just the tested room: the flight stops half-way,
  // with the ChangeCipherSpec written and the write cipher switched.
  lemma FinalFlightStopsHalfWay(c: Crypto, s: Sess)
    requires Sound(c) && WriterKept(s) && !s.flags.writeSecure && !s.cipher.NullSuite?
    requires s.hsState == HS_DONE && s.err == ALERT_NONE
    ensures var w := EncodeResponse(c, NoEnv(), s, FinalFlightSize(s));
            w.Full? && |w.out| == HEADER + 1 && w.s.en.suite == s.cipher != s.en.suite
  {
    FirstFinalFlightExactly(c, s, FinalFlightSize(s));
    FinalRecordsFit(c, s, FinalFlightSize(s));
    hide Sound, FinalRecords;
  }

  function NoEnv(): Env {
    Env([], PrivKey([]), (_, n) => Repeat(0, n), _ => None, (_, _) => None, _ => None, _ => false)
  }

  // ---------------------------------------------------------------------------
  // ServerHello, ChangeCipherSpec, Finished
  // ---------------------------------------------------------------------------

  lemma ResumeArithmetic(suite: Suite, pending: Suite, id: nat)
    requires id <= SESSION_ID_SIZE
    ensures var add := if suite.NullSuite? then 0 else 3 * suite.MacSize() + 3 * (suite.BlockSize() - 1);
            (HEADER + 42 + id + Overhead(suite, 42 + id)) + (HEADER + 1 + Overhead(suite, 1))
            + (HEADER + HS_HEADER + FINISHED_SIZE + Overhead(pending, HS_HEADER + FINISHED_SIZE))
            <= 3 * HEADER + 2 * HS_HEADER + 38 + SESSION_ID_SIZE + 1 + FINISHED_SIZE + add + PendingMargin(pending)
  {
    assert PadLen(60, 8) == 4 && PadLen(21, 8) == 3;
  }

  // What the three records really take.
  function ResumeBytes(s: Sess): nat {
    HEADER + 42 + s.sid.len + Overhead(s.en.suite, 42 + s.sid.len) + FinalBytes(s)
  }

  lemma ResumeRecordsFit(c: Crypto, env: Env, s: Sess, free: int)
    requires Sound(c) && GoodEnv(env) && s.flags.resumed && s.sid.len <= SESSION_ID_SIZE
    ensures var w := ResumeRecords(c, env, s, free);
            var upToChange := ResumeBytes(s) - FinalBytes(s) + WireSize(s, 1);
            !w.Failed? && (w.Wrote? <==> free >= ResumeBytes(s))
            && (w.Full? && free >= upToChange ==> |w.out| == upToChange && w.s.en.suite == s.cipher)
  {
    hide Sound, WriteRecord, GoodEnv, Overhead, HandshakeData, ServerHelloBody, PrepareServerHello, FinalRecords,
         DeriveKeys;
    var s1 := PrepareServerHello(env, s);
    ServerHelloLength(env, s);
    ResumedId(env, s);
    var hello := HandshakeData(2, ServerHelloBody(s1));
    RecordFits(c, s1, HANDSHAKE, hello, free);
    var w := WriteRecord(c, s1, HANDSHAKE, hello, free);
    DerivedKeeps(c, w.s);
    var w1 := WriteServerHello(c, env, s, free);
    FinalRecordsFit(c, w1.s, free - |w1.out|);
  }

  lemma ResumedId(env: Env, s: Sess)
    requires s.flags.resumed
    ensures PrepareServerHello(env, s).sid == s.sid
  {
  }

  lemma ResumeFlightFits(c: Crypto, env: Env, s: Sess, free: nat)
    requires Sound(c) && GoodEnv(env) && WriterKept(s) && s.flags.resumed
    requires ResumeFlightSize(s) + PendingMargin(s.cipher) <= free
    ensures ResumeRecords(c, env, s, free).Wrote?
  {
    hide Sound, GoodEnv, ResumeRecords, Overhead;
    ResumeRecordsFit(c, env, s, free);
    ResumeArithmetic(s.en.suite, s.cipher, s.sid.len);
  }

  // On an unprotected connection the resumed flight fits exactly when there is room for the
  // tested size, less what a shorter id saves, and the pending suite's MAC and padding.
  lemma ResumeFlightExactly(c: Crypto, env: Env, s: Sess, free: nat)
    requires Sound(c) && GoodEnv(env) && WriterKept(s) && !s.flags.writeSecure && s.flags.resumed
    ensures ResumeRecords(c, env, s, free).Full?
       <==> free < ResumeFlightSize(s) - (SESSION_ID_SIZE - s.sid.len) + Overhead(s.cipher, HS_HEADER + FINISHED_SIZE)
  {
    hide Sound, GoodEnv, ResumeRecords;
    ResumeRecordsFit(c, env, s, free);
  }

  // With a whole id and just the tested room it stops half-way like the other one.
  lemma ResumeFlightStopsHalfWay(c: Crypto, env: Env, s: Sess)
    requires Sound(c) && GoodEnv(env) && WriterKept(s) && !s.flags.writeSecure && !s.cipher.NullSuite?
    requires s.hsState == HS_FINISHED && s.flags.server && s.flags.resumed && s.sid.len == SESSION_ID_SIZE
             && s.err == ALERT_NONE
    ensures var w := EncodeResponse(c, env, s, ResumeFlightSize(s));
            w.Full? && |w.out| == HEADER + 42 + SESSION_ID_SIZE + HEADER + 1 && w.s.en.suite == s.cipher != s.en.suite
  {
    hide Sound, GoodEnv, ResumeRecords;
    ResumeFlightExactly(c, env, s, ResumeFlightSize(s));
    ResumeRecordsFit(c, env, s, ResumeFlightSize(s));
  }

  lemma DerivedKeeps(c: Crypto, s: Sess)
    requires Sound(c)
    ensures DeriveKeys(c, s).en == s.en && DeriveKeys(c, s).cipher == s.cipher
  {
    hide Sound, KeyBlock, Slice, MasterSecret;
  }

  // ---------------------------------------------------------------------------
  // ClientKeyExchange, ChangeCipherSpec, Finished
  // ---------------------------------------------------------------------------

  lemma KeyArithmetic(suite: Suite, pending: Suite, keySize: nat)
    ensures var add := if suite.NullSuite? then 0 else 2 * suite.MacSize() + 2 * (suite.BlockSize() - 1);
            (HEADER + HS_HEADER + keySize + Overhead(suite, HS_HEADER + keySize)) + (HEADER + 1 + Overhead(suite, 1))
            + (HEADER + HS_HEADER + FINISHED_SIZE + Overhead(pending, HS_HEADER + FINISHED_SIZE))
            <= 3 * HEADER + 2 * HS_HEADER + keySize + 1 + FINISHED_SIZE + MAX_MAC + MAX_BLOCK - 1 + add
  {
    assert PadLen(60, 8) == 4 && PadLen(21, 8) == 3;
  }

  // The client's flight allows for the largest MAC and block, so its test is enough, for any key
  // size; only the missing public-key provider of the null suite is reported as lack of room.
  lemma KeyFlightFits(c: Crypto, env: Env, s: Sess, free: nat)
    requires Sound(c) && WriterKept(s) && s.sec.cert.Some?
    requires KeyFlightSize(s, s.sec.cert.value.size) <= free
    ensures KeyRecords(c, env, s, free).Full? <==> s.cipher.NullSuite?
    ensures !KeyRecords(c, env, s, free).Failed?
  {
    hide Sound, WriteRecord, Overhead, HandshakeData, FinalRecords, DeriveKeys;
    var pub := s.sec.cert.value;
    var s1 := s.(sec := s.sec.(premaster := [s.ver.reqMaj, s.ver.reqMin] + env.entropy(s.draws, PREMASTER_SIZE - 2)),
                 draws := s.draws + 1);
    var data := HandshakeData(16, c.encPub(pub, s1.sec.premaster));
    KeyExchangeLength(c, pub, s1.sec.premaster);
    KeyArithmetic(s.en.suite, s.cipher, pub.size);
    RecordFits(c, s1, HANDSHAKE, data, free);
    var w := WriteRecord(c, s1, HANDSHAKE, data, free);
    DerivedKeeps(c, w.s);
    var w1 := WriteClientKeyExchange(c, env, s, free);
    FinalRecordsFit(c, w1.s, free - |w1.out|);
  }

  lemma KeyExchangeLength(c: Crypto, pub: PubKey, secret: Octets)
    requires Sound(c)
    ensures |HandshakeData(16, c.encPub(pub, secret))| == HS_HEADER + pub.size
  {
  }

  // ---------------------------------------------------------------------------
  // The answers of the decoder
  // ---------------------------------------------------------------------------

  // For the server-hello flight and the client's key flight the test decides alone: the answer
  // is refused for lack of room exactly when the test fails, so nothing is left half-written.
  lemma HelloTestDecides(c: Crypto, env: Env, s: Sess, free: nat)
    requires Sound(c) && GoodEnv(env) && WriterKept(s) && s.err == ALERT_NONE
    requires s.hsState == HS_CLIENT_KEY_EXCHANGE && !s.flags.resumed
    ensures EncodeResponse(c, env, s, free).Full? <==> free < HelloFlightSize(env, s)
    ensures EncodeResponse(c, env, s, free).Full? ==> EncodeResponse(c, env, s, free) == Full(s, [])
  {
    hide HelloRecords, Sound, GoodEnv, HelloFlightSize, WriterKept;
    if HelloFlightSize(env, s) <= free {
      HelloFlightFits(c, env, s, free);
    }
  }

  lemma KeyTestDecides(c: Crypto, env: Env, s: Sess, free: nat)
    requires Sound(c) && WriterKept(s) && s.err == ALERT_NONE
    requires s.hsState == HS_FINISHED && !s.flags.server && s.sec.cert.Some? && !s.cipher.NullSuite?
    ensures EncodeResponse(c, env, s, free).Full? <==> free < KeyFlightSize(s, s.sec.cert.value.size)
    ensures EncodeResponse(c, env, s, free).Full? ==> EncodeResponse(c, env, s, free) == Full(s, [])
  {
    hide KeyRecords, Sound, KeyFlightSize, WriterKept;
    if KeyFlightSize(s, s.sec.cert.value.size) <= free {
      KeyFlightFits(c, env, s, free);
    }
  }
}
