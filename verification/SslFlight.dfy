/** The writing side: single records, handshake messages, and the flights of messages that
    answer the peer, with the size test each flight makes before it starts. */
module SslFlight {
  import opened Bytes
  import opened SslCrypto
  import opened SslRecord
  import opened SslState

  // out holds the records already finished when a later one does not fit or fails.
  datatype Written =
    | Wrote(s: Sess, out: Octets)
    | Full(s: Sess, out: Octets)
    | Failed(s: Sess, out: Octets)

  const WARNING: byte := 1
  const FATAL: byte := 2
  const CLOSE_NOTIFY: byte := 0

  function HandshakeData(hsType: byte, body: Octets): Octets {
    [hsType] + Be3(|body|) + body
  }

  function WireSize(s: Sess, len: nat): nat {
    HEADER + len + Overhead(s.en.suite, len)
  }

  // One record, if it fits.
  function WriteRecord(c: Crypto, s: Sess, typ: byte, data: Octets, free: int): Written {
    if free < WireSize(s, |data|) then Full(s, [])
    else
      var (en, wire) := Seal(c, s.en, typ, s.ver.maj, s.ver.min, data);
      var s1 := s.(en := en);
      Wrote(if typ == HANDSHAKE then Hash(s1, data) else s1, wire)
  }

  lemma WriteRecordSize(c: Crypto, s: Sess, typ: byte, data: Octets, free: int)
    requires Sound(c)
    ensures var w := WriteRecord(c, s, typ, data, free);
            if free < WireSize(s, |data|) then w == Full(s, [])
            else w.Wrote? && |w.out| == WireSize(s, |data|) && w.s.en.suite == s.en.suite
  {
    SealLength(c, s.en, typ, s.ver.maj, s.ver.min, data);
    hide Sound;
  }

  // Runs the next writer in the space that is left.
  function Append(w: Written, next: Written): Written {
    if w.Wrote? then next.(out := w.out + next.out) else w
  }

  // ---------------------------------------------------------------------------
  // Messages
  // ---------------------------------------------------------------------------

  function ServerHelloBody(s: Sess): Octets
    requires s.sid.len <= SESSION_ID_SIZE
  {
    [s.ver.maj, s.ver.min] + s.sec.serverRandom + [s.sid.len] + s.sid.id[..s.sid.len] + Be2(s.cipher.Id()) + [0]
  }

  // The session cache hands out a slot; the id is the slot number and the server random.
  function Register(env: Env, s: Sess): Sess {
    var slot := env.register(s.draws);
    if slot.None? || |s.sec.serverRandom| != RANDOM_SIZE then s
    else s.(sid := Sid([slot.value, 0, 0, 0] + s.sec.serverRandom[4..], SESSION_ID_SIZE))
  }

  function PrepareServerHello(env: Env, s: Sess): Sess {
    var s1 := s.(sec := s.sec.(serverRandom := env.entropy(s.draws, RANDOM_SIZE)));
    (if s.flags.resumed then s1 else Register(env, s1)).(draws := s.draws + 1)
  }

  function WriteServerHello(c: Crypto, env: Env, s: Sess, free: int): Written
    requires Sound(c)
  {
    var s1 := PrepareServerHello(env, s);
    if s1.sid.len > SESSION_ID_SIZE then Failed(s1, [])
    else
      var w := WriteRecord(c, s1, HANDSHAKE, HandshakeData(2, ServerHelloBody(s1)), free);
      if w.Wrote? && s.flags.resumed then w.(s := DeriveKeys(c, w.s)) else w
  }

  function CertificateEntries(certs: seq<Octets>): Octets {
    if certs == [] then [] else Be3(|certs[0]|) + certs[0] + CertificateEntries(certs[1..])
  }

  function TotalLength(certs: seq<Octets>): nat {
    if certs == [] then 0 else |certs[0]| + TotalLength(certs[1..])
  }

  lemma {:induction false} EntriesLength(certs: seq<Octets>)
    ensures |CertificateEntries(certs)| == TotalLength(certs) + 3 * |certs|
  {
    if certs != [] {
      EntriesLength(certs[1..]);
    }
  }

  function CertificateBody(certs: seq<Octets>): Octets {
    Be3(TotalLength(certs) + 3 * |certs|) + CertificateEntries(certs)
  }

  // An empty certificate is counted but not written, which the length check then notices.
  function WriteCertificate(c: Crypto, env: Env, s: Sess, free: int): Written {
    if [] in env.certs then
      if free < WireSize(s, HS_HEADER + 3 + TotalLength(env.certs) + 3 * |env.certs|) then Full(s, [])
          else Failed(s, [])
    else WriteRecord(c, s, HANDSHAKE, HandshakeData(11, CertificateBody(env.certs)), free)
  }

  function WriteServerHelloDone(c: Crypto, s: Sess, free: int): Written {
    WriteRecord(c, s, HANDSHAKE, HandshakeData(14, []), free)
  }

  function WriteChangeCipherSpec(c: Crypto, s: Sess, free: int): Written {
    var w := WriteRecord(c, s, CHANGE_CIPHER_SPEC, [1], free);
    if w.Wrote? then w.(s := ActivateWrite(c, w.s)) else w
  }

  function WriteFinished(c: Crypto, s: Sess, free: int): Written {
    var w := WriteRecord(c, s, HANDSHAKE,
                         HandshakeData(20, FinishedHash(c, s.sec.transcript, s.sec.master, s.flags.server)), free);
    if w.Wrote? then w.(s := w.s.(sec := w.s.sec.(cert := None))) else w
  }

  function WriteAlert(c: Crypto, s: Sess, level: byte, description: byte, free: int): Written {
    WriteRecord(c, s, ALERT, [level, description], free)
  }

  // Without a negotiated suite there is no public-key provider, and the source reports that as
  // a lack of room.
  function WriteClientKeyExchange(c: Crypto, env: Env, s: Sess, free: int): Written
    requires Sound(c) && s.sec.cert.Some?
  {
    var pub := s.sec.cert.value;
    var s1 := s.(draws := s.draws + 1,
                 sec := s.sec.(premaster := [s.ver.reqMaj, s.ver.reqMin] + env.entropy(s.draws, PREMASTER_SIZE - 2)));
    if free < WireSize(s, HS_HEADER + pub.size) then Full(s, [])
    else if s.cipher.NullSuite? then Full(s1, [])
    else
      var w := WriteRecord(c, s1, HANDSHAKE, HandshakeData(16, c.encPub(pub, s1.sec.premaster)), free);
      if w.Wrote? then w.(s := DeriveKeys(c, w.s)) else w
  }

  function ClientHelloBody(s: Sess, suites: Octets): Octets
    requires s.sid.len <= SESSION_ID_SIZE
  {
    [s.ver.maj, s.ver.min] + s.sec.clientRandom + [s.sid.len] + s.sid.id[..s.sid.len] + suites + [1, 0]
  }

  // A fresh random and the record; if that does not fit, the random was not drawn.
  function OfferSuites(c: Crypto, env: Env, s: Sess, suites: Octets, free: int): Written
    requires s.sid.len <= SESSION_ID_SIZE
  {
    var s1 := s.(draws := s.draws + 1, sec := s.sec.(clientRandom := env.entropy(s.draws, RANDOM_SIZE)));
    var w := WriteRecord(c, s1, HANDSHAKE, HandshakeData(1, ClientHelloBody(s1, suites)), free);
    if w.Wrote? then w.(s := w.s.(hsState := HS_SERVER_HELLO)) else Full(s, [])
  }

  // cipherSpec 0 offers every suite; resuming offers the resumed suite only.
  function EncodeClientHello(c: Crypto, env: Env, s: Sess, cipherSpec: nat, free: int): Written {
    if s.flags.error || s.flags.closed || s.flags.server || s.sid.len > SESSION_ID_SIZE then Failed(s, [])
    else if s.hsState != HS_SERVER_HELLO && s.hsState != HS_DONE && s.hsState != HS_HELLO_REQUEST then Failed(s, [])
    else
      var s1 := s.(flags := if s.sid.len > 0 then s.flags else s.flags.(resumed := false),
                   sec := s.sec.(transcript := []));
      var spec := if s.sid.len > 0 then s.cipher.Id() else cipherSpec;
      if spec != 0 && GetCipherSpec(spec).None? then Failed(s1, [])
      else OfferSuites(c, env, s1, if spec == 0 then CipherSpecList() else Be2(2) + Be2(spec), free)
  }

  // ---------------------------------------------------------------------------
  // Flights
  // ---------------------------------------------------------------------------

  // What a flight of n records is expected to grow by under live protection.
  function SecureWriteAdditions(s: Sess, n: nat): int {
    if s.flags.writeSecure then n * s.en.suite.MacSize() + n * (s.en.suite.BlockSize() - 1) else 0
  }

  function HelloFlightSize(env: Env, s: Sess): int {
    3 * HEADER + 3 * HS_HEADER + 38 + SESSION_ID_SIZE + 3 + 3 * |env.certs| + TotalLength(env.certs)
    + SecureWriteAdditions(s, 3)
  }

  function FinalFlightSize(s: Sess): int {
    2 * HEADER + HS_HEADER + 1 + FINISHED_SIZE + SecureWriteAdditions(s, 2)
  }

  function ResumeFlightSize(s: Sess): int {
    3 * HEADER + 2 * HS_HEADER + 38 + SESSION_ID_SIZE + 1 + FINISHED_SIZE + SecureWriteAdditions(s, 3)
  }

  const MAX_MAC := 20
  const MAX_BLOCK := 16

  function KeyFlightSize(s: Sess, keySize: nat): int {
    3 * HEADER + 2 * HS_HEADER + keySize + 1 + FINISHED_SIZE + MAX_MAC + MAX_BLOCK - 1 + SecureWriteAdditions(s, 2)
  }

  // ServerHello, Certificate, ServerHelloDone
  function HelloRecords(c: Crypto, env: Env, s: Sess, free: int): Written
    requires Sound(c)
  {
    var w1 := WriteServerHello(c, env, s, free);
    var w2 := Append(w1, WriteCertificate(c, env, w1.s, free - |w1.out|));
    Append(w2, WriteServerHelloDone(c, w2.s, free - |w2.out|))
  }

  // ChangeCipherSpec, Finished
  function FinalRecords(c: Crypto, s: Sess, free: int): Written {
    var w1 := WriteChangeCipherSpec(c, s, free);
    Append(w1, WriteFinished(c, w1.s, free - |w1.out|))
  }

  // ServerHello, ChangeCipherSpec, Finished
  function ResumeRecords(c: Crypto, env: Env, s: Sess, free: int): Written
    requires Sound(c)
  {
    var w1 := WriteServerHello(c, env, s, free);
    Append(w1, FinalRecords(c, w1.s, free - |w1.out|))
  }

  // ClientKeyExchange, ChangeCipherSpec, Finished
  function KeyRecords(c: Crypto, env: Env, s: Sess, free: int): Written
    requires Sound(c) && s.sec.cert.Some?
  {
    var w1 := WriteClientKeyExchange(c, env, s, free);
    Append(w1, FinalRecords(c, w1.s, free - |w1.out|))
  }

  function Flagged(w: Written): Written {
    if w.Failed? then w.(s := w.s.(flags := w.s.flags.(error := true))) else w
  }

  // The answer the session owes: an alert when an error is recorded, else the flight of its state.
  function EncodeResponse(c: Crypto, env: Env, s: Sess, free: int): Written
    requires Sound(c)
  {
    if s.err != ALERT_NONE then WriteAlert(c, s, FATAL, s.err, free)
    else if s.hsState == HS_CLIENT_KEY_EXCHANGE then
      if free < HelloFlightSize(env, s) then Full(s, []) else Flagged(HelloRecords(c, env, s, free))
    else if s.hsState == HS_DONE then
      if free < FinalFlightSize(s) then Full(s, []) else Flagged(FinalRecords(c, s, free))
    else if s.hsState == HS_FINISHED && s.flags.server then
      if free < ResumeFlightSize(s) then Full(s, []) else Flagged(ResumeRecords(c, env, s, free))
    else if s.hsState == HS_FINISHED then
      if s.sec.cert.None? then Flagged(Failed(s, []))
      else if free < KeyFlightSize(s, s.sec.cert.value.size) then Full(s, [])
      else Flagged(KeyRecords(c, env, s, free))
    else Flagged(Failed(s, []))
  }

  // ---------------------------------------------------------------------------
  // The calls of the application
  // ---------------------------------------------------------------------------

  function Encode(c: Crypto, s: Sess, payload: Octets, free: int): Written {
    if s.flags.error || s.flags.closed || s.hsState != HS_DONE || HEADER + |payload| > MAX_BUF then Failed(s, [])
    else WriteRecord(c, s, APPLICATION_DATA, payload, free)
  }

  function EncodeClosureAlert(c: Crypto, s: Sess, free: int): Written {
    if s.flags.error then Failed(s, []) else WriteAlert(c, s, WARNING, CLOSE_NOTIFY, free)
  }

  function EncodeHelloRequest(c: Crypto, s: Sess, free: int): Written {
    if s.flags.error || s.flags.closed || !s.flags.server || s.hsState != HS_DONE then Failed(s, [])
    else WriteRecord(c, s, HANDSHAKE, HandshakeData(0, []), free)
  }

  // ---------------------------------------------------------------------------
  // What writing leaves alone
  // ---------------------------------------------------------------------------

  // Writing touches the write protection, the transcript, the keys and the randoms, and nothing
  // that the reading side or the order of messages depends on.
  ghost predicate Kept(s: Sess, t: Sess) {
    && t.flags.server == s.flags.server && t.flags.readSecure == s.flags.readSecure
    && t.flags.resumed == s.flags.resumed && t.flags.closed == s.flags.closed
    && t.flags.needEncode == s.flags.needEncode
    && ((t.en.suite == s.en.suite && t.flags.writeSecure == s.flags.writeSecure)
        || (t.en.suite == s.cipher && t.flags.writeSecure == (s.flags.writeSecure || !s.cipher.NullSuite?)))
    && (t.sid.len == s.sid.len || t.sid.len == SESSION_ID_SIZE)
    && t.hsState == s.hsState && t.err == s.err && t.ignored == s.ignored
    && t.ver.maj == s.ver.maj && t.ver.min == s.ver.min && t.ver.reqMaj == s.ver.reqMaj && t.ver.reqMin == s.ver.reqMin
    && t.cipher == s.cipher && t.de == s.de
  }

  lemma WriteRecordKeeps(c: Crypto, s: Sess, typ: byte, data: Octets, free: int)
    ensures Kept(s, WriteRecord(c, s, typ, data, free).s)
    ensures WriteRecord(c, s, typ, data, free).s.en.suite == s.en.suite
    ensures WriteRecord(c, s, typ, data, free).s.flags == s.flags
  {
    hide Fragment, Encrypt, Header, WireSize, Tick;
  }

  lemma DeriveKeysKeeps(c: Crypto, s: Sess)
    requires Sound(c)
    ensures Kept(s, DeriveKeys(c, s))
  {
    hide Sound, KeyBlock, Slice, MasterSecret;
  }

  lemma ServerHelloKeeps(c: Crypto, env: Env, s: Sess, free: int)
    requires Sound(c)
    ensures Kept(s, WriteServerHello(c, env, s, free).s)
  {
    hide WriteRecord, DeriveKeys, ServerHelloBody, HandshakeData;
    var s1 := PrepareServerHello(env, s);
    if s1.sid.len <= SESSION_ID_SIZE {
      var data := HandshakeData(2, ServerHelloBody(s1));
      WriteRecordKeeps(c, s1, HANDSHAKE, data, free);
      DeriveKeysKeeps(c, WriteRecord(c, s1, HANDSHAKE, data, free).s);
    }
  }

  lemma FinalRecordsKeep(c: Crypto, s: Sess, free: int)
    ensures Kept(s, FinalRecords(c, s, free).s)
  {
    hide WriteRecord, HandshakeData, FinishedHash, Repeat;
    var w1 := WriteChangeCipherSpec(c, s, free);
    WriteRecordKeeps(c, s, CHANGE_CIPHER_SPEC, [1], free);
    var s1 := w1.s;
    WriteRecordKeeps(c, s1, HANDSHAKE,
                     HandshakeData(20, FinishedHash(c, s1.sec.transcript, s1.sec.master, s1.flags.server)),
                         free - |w1.out|);
  }

  lemma KeyExchangeKeeps(c: Crypto, env: Env, s: Sess, free: int)
    requires Sound(c) && s.sec.cert.Some?
    ensures Kept(s, WriteClientKeyExchange(c, env, s, free).s)
  {
    hide WriteRecord, DeriveKeys, HandshakeData, WireSize;
    var s1 := s.(draws := s.draws + 1,
                 sec := s.sec.(premaster := [s.ver.reqMaj, s.ver.reqMin] + env.entropy(s.draws, PREMASTER_SIZE - 2)));
    var data := HandshakeData(16, c.encPub(s.sec.cert.value, s1.sec.premaster));
    WriteRecordKeeps(c, s1, HANDSHAKE, data, free);
    DeriveKeysKeeps(c, WriteRecord(c, s1, HANDSHAKE, data, free).s);
  }

  lemma HelloRecordsKeep(c: Crypto, env: Env, s: Sess, free: int)
    requires Sound(c)
    ensures Kept(s, HelloRecords(c, env, s, free).s)
  {
    hide WriteRecord, WriteServerHello, HandshakeData, CertificateBody, WireSize;
    var w1 := WriteServerHello(c, env, s, free);
    ServerHelloKeeps(c, env, s, free);
    WriteRecordKeeps(c, w1.s, HANDSHAKE, HandshakeData(11, CertificateBody(env.certs)), free - |w1.out|);
    var w2 := Append(w1, WriteCertificate(c, env, w1.s, free - |w1.out|));
    WriteRecordKeeps(c, w2.s, HANDSHAKE, HandshakeData(14, []), free - |w2.out|);
  }

  lemma ResumeRecordsKeep(c: Crypto, env: Env, s: Sess, free: int)
    requires Sound(c)
    ensures Kept(s, ResumeRecords(c, env, s, free).s)
  {
    hide WriteServerHello, FinalRecords;
    ServerHelloKeeps(c, env, s, free);
    var w1 := WriteServerHello(c, env, s, free);
    FinalRecordsKeep(c, w1.s, free - |w1.out|);
  }

  lemma KeyRecordsKeep(c: Crypto, env: Env, s: Sess, free: int)
    requires Sound(c) && s.sec.cert.Some?
    ensures Kept(s, KeyRecords(c, env, s, free).s)
  {
    hide WriteClientKeyExchange, FinalRecords;
    KeyExchangeKeeps(c, env, s, free);
    var w1 := WriteClientKeyExchange(c, env, s, free);
    FinalRecordsKeep(c, w1.s, free - |w1.out|);
  }

  lemma FlaggedKeeps(s: Sess, w: Written)
    requires Kept(s, w.s)
    ensures Kept(s, Flagged(w).s)
  {
  }

  lemma KeptItself(s: Sess)
    ensures Kept(s, s)
  {
  }

  lemma ResponseKeeps(c: Crypto, env: Env, s: Sess, free: int)
    requires Sound(c)
    ensures Kept(s, EncodeResponse(c, env, s, free).s)
  {
    hide HelloRecords, FinalRecords, ResumeRecords, KeyRecords, WriteRecord, Kept, Flagged;
    hide HelloFlightSize, FinalFlightSize, ResumeFlightSize, KeyFlightSize;
    forall w: Written | Kept(s, w.s) ensures Kept(s, Flagged(w).s) { FlaggedKeeps(s, w); }
    KeptItself(s);
    if s.err != ALERT_NONE {
      WriteRecordKeeps(c, s, ALERT, [FATAL, s.err], free);
    } else {
      HelloRecordsKeep(c, env, s, free);
      FinalRecordsKeep(c, s, free);
      ResumeRecordsKeep(c, env, s, free);
      if s.sec.cert.Some? {
        KeyRecordsKeep(c, env, s, free);
      }
    }
  }

  ghost predicate HelloKept(s: Sess, t: Sess) {
    Kept(s, t.(hsState := s.hsState, flags := t.flags.(resumed := s.flags.resumed)))
  }

  lemma OfferKeeps(c: Crypto, env: Env, s: Sess, suites: Octets, free: int)
    requires s.sid.len <= SESSION_ID_SIZE
    ensures HelloKept(s, OfferSuites(c, env, s, suites, free).s)
  {
    hide WriteRecord, HandshakeData, ClientHelloBody;
    var s1 := s.(draws := s.draws + 1, sec := s.sec.(clientRandom := env.entropy(s.draws, RANDOM_SIZE)));
    WriteRecordKeeps(c, s1, HANDSHAKE, HandshakeData(1, ClientHelloBody(s1, suites)), free);
  }

  lemma ClientHelloKeeps(c: Crypto, env: Env, s: Sess, cipherSpec: nat, free: int)
    ensures HelloKept(s, EncodeClientHello(c, env, s, cipherSpec, free).s)
    ensures s.flags.server ==> EncodeClientHello(c, env, s, cipherSpec, free) == Failed(s, [])
  {
    hide OfferSuites, GetCipherSpec, CipherSpecList;
    if s.sid.len <= SESSION_ID_SIZE {
      var s1 := s.(flags := if s.sid.len > 0 then s.flags else s.flags.(resumed := false),
                   sec := s.sec.(transcript := []));
      var spec := if s.sid.len > 0 then s.cipher.Id() else cipherSpec;
      OfferKeeps(c, env, s1, if spec == 0 then CipherSpecList() else Be2(2) + Be2(spec), free);
    }
  }
}
