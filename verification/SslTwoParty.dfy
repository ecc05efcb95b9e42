/** A fresh client and a fresh server over a faithful channel: the full and the resumed exchange,
    from the first ClientHello until both sides are done. */
module SslTwoParty {
  import opened Bytes
  import opened SslCrypto
  import opened SslRecord
  import opened SslState
  import opened SslHandshake
  import opened SslFlight
  import opened SslDecode
  import opened SslStream
  import opened SslPasses
  import opened SslReadBack
  import opened SslFlightSize
  import opened SslConversation
  import opened SslClosing

  // ---------------------------------------------------------------------------
  // The channel
  // ---------------------------------------------------------------------------

  // What the receive loop has to send.
  function Output(reports: seq<Report>): Octets {
    if reports == [] then []
    else (if reports[0].Respond? then reports[0].out else []) + Output(reports[1..])
  }

  // One side takes in all that was sent to it; it must neither stop nor want more.
  function Turn(c: Crypto, env: Env, s: Sess, input: Octets, free: nat): Option<(Sess, Octets)>
    requires Sound(c)
  {
    var k := Drain(c, env, Conn(s, input, [], false), free);
    if k.stopped || k.pending != [] then None else Some((k.s, Output(k.reports)))
  }

  datatype Peers = Peers(client: Sess, server: Sess, toServer: Octets)

  // The server reads and answers, then the client does.
  function Round(c: Crypto, envC: Env, envS: Env, p: Peers, free: nat): Option<Peers>
    requires Sound(c)
  {
    var server := Turn(c, envS, p.server, p.toServer, free);
    if server.None? then None
    else
      var client := Turn(c, envC, p.client, server.value.1, free);
      if client.None? then None else Some(Peers(client.value.0, server.value.0, client.value.1))
  }

  // The client speaks first; two rounds are enough.
  function Exchange(c: Crypto, envC: Env, envS: Env, session: Option<SessionId>, spec: nat, free: nat): Option<Peers>
    requires Sound(c)
  {
    var hello := EncodeClientHello(c, envC, NewClient(session), spec, free);
    if !hello.Wrote? then None
    else
      var first := Round(c, envC, envS, Peers(hello.s, NewServer(), hello.out), free);
      if first.None? then None else Round(c, envC, envS, first.value, free)
  }

  lemma TurnAnswers(c: Crypto, env: Env, s: Sess, input: Octets, s1: Sess, out: Octets, free: nat)
    requires Sound(c)
    requires Drain(c, env, Conn(s, input, [], false), free) == Conn(s1, [], [Respond(out)], false)
    ensures Turn(c, env, s, input, free) == Some((s1, out))
  {
    hide Drain;
    assert Output([Respond(out)]) == out + [] == out;
  }

  lemma TurnEnds(c: Crypto, env: Env, s: Sess, input: Octets, s1: Sess, free: nat)
    requires Sound(c)
    requires Drain(c, env, Conn(s, input, [], false), free) == Conn(s1, [], [], false)
    ensures Turn(c, env, s, input, free) == Some((s1, []))
  {
    hide Drain;
  }

  lemma RoundIs(c: Crypto, envC: Env, envS: Env, p: Peers, s1: Sess, toClient: Octets, c1: Sess, toServer: Octets,
                free: nat)
    requires Sound(c)
    requires Turn(c, envS, p.server, p.toServer, free) == Some((s1, toClient))
    requires Turn(c, envC, p.client, toClient, free) == Some((c1, toServer))
    ensures Round(c, envC, envS, p, free) == Some(Peers(c1, s1, toServer))
  {
    hide Turn, Sound;
  }

  // The pieces in which the channel hands its bytes over do not matter.
  lemma TurnInPieces(c: Crypto, env: Env, s: Sess, pieces: seq<Octets>, free: nat)
    requires Sound(c) && Usable(s)
    ensures var k := FeedAll(c, env, Conn(s, [], [], false), pieces, free);
            Turn(c, env, s, Joined(pieces), free)
            == if k.stopped || k.pending != [] then None else Some((k.s, Output(k.reports)))
  {
    EmptyDrain(c, env, s, [], free);
    hide Drain;
    ChunkingIndependence(c, env, Conn(s, [], [], false), pieces, free);
    assert [] + Joined(pieces) == Joined(pieces);
  }

  // ---------------------------------------------------------------------------
  // The ClientHello
  // ---------------------------------------------------------------------------

  // The suite the client asks for: that of the session it would resume, else its caller's choice.
  function Spec(session: Option<SessionId>, spec: nat): nat {
    var s := NewClient(session);
    if s.sid.len > 0 then s.cipher.Id() else spec
  }

  predicate KnownSpec(spec: nat) {
    spec == 0 || GetCipherSpec(spec).Some?
  }

  function Speaking(env: Env, session: Option<SessionId>): Sess {
    var s := NewClient(session);
    s.(draws := 1, sec := s.sec.(clientRandom := env.entropy(0, RANDOM_SIZE)))
  }

  function HelloData(env: Env, session: Option<SessionId>, spec: nat): Octets {
    var list := Offer(Spec(session, spec));
    HandshakeData(1, ClientHelloBody(Speaking(env, session), Be2(|list|) + list))
  }

  lemma NewClientGives(session: Option<SessionId>)
    ensures var s := NewClient(session);
            && !s.flags.server && !s.flags.resumed && Usable(s) && s.hsState == HS_SERVER_HELLO && s.err == ALERT_NONE
            && s.ver == Ver(3, 0, 0, 0) && PlainWriter(s) && PlainReader(s) && s.sec.transcript == []
            && (s.sid.len == 0 || (s.sid.len == SESSION_ID_SIZE && !s.cipher.NullSuite? && session.Some?
                && s.sid.id == session.value.id && s.sec.master == session.value.master))
  {
    hide Repeat;
  }

  lemma HelloDataSize(env: Env, session: Option<SessionId>, spec: nat)
    requires GoodEnv(env) && KnownSpec(spec)
    ensures 0 < |HelloData(env, session, spec)| < 0x80
    ensures KnownSpec(Spec(session, spec))
  {
    NewClientGives(session);
    OfferPicked(NewClient(None), Spec(session, spec));
    hide Offer, Be2, NewClient;
  }

  lemma ClientSpeaks(c: Crypto, env: Env, session: Option<SessionId>, spec: nat, free: nat)
    requires GoodEnv(env) && KnownSpec(spec) && free >= 0x100
    ensures EncodeClientHello(c, env, NewClient(session), spec, free)
         == Wrote(Hash(Speaking(env, session), HelloData(env, session, spec)),
                  Bare(HANDSHAKE, HelloData(env, session, spec)))
  {
    NewClientGives(session);
    HelloDataSize(env, session, spec);
    OfferPicked(NewClient(None), Spec(session, spec));
    hide Offer, Be2, NewClient, HandshakeData, ClientHelloBody, Bare, GoodEnv, CipherSpecList;
    PlainWrite(c, Speaking(env, session), HANDSHAKE, HelloData(env, session, spec), free);
    hide WriteRecord;
  }

  // The server's state on reading it.
  function Greeted(envC: Env, envS: Env, session: Option<SessionId>, spec: nat): Sess {
    var w := Speaking(envC, session);
    var s := NewServer().(ver := Ver(3, 0, 3, 0),
                          sec := NewServer().sec.(clientRandom := w.sec.clientRandom,
                                                  transcript := HelloData(envC, session, spec)));
    LookupSession(envS, s, w.sid.id[..w.sid.len])
  }

  function Greeting(envC: Env, envS: Env, session: Option<SessionId>, spec: nat, suite: Suite): Sess {
    var s := Greeted(envC, envS, session, spec);
    s.(cipher := suite, hsState := if s.flags.resumed then HS_FINISHED else HS_CLIENT_KEY_EXCHANGE)
  }

  lemma ServerHears(c: Crypto, envC: Env, envS: Env, session: Option<SessionId>, spec: nat, suite: Suite, free: nat)
    requires Sound(c) && GoodEnv(envC) && KnownSpec(spec) && 0x10000 <= free
    requires PickSuite(Greeted(envC, envS, session, spec), Offer(Spec(session, spec))) == Some(suite)
    ensures var wire := Bare(HANDSHAKE, HelloData(envC, session, spec));
            Step(c, envS, NewServer(), wire, free)
                == Answer(c, envS, Greeting(envC, envS, session, spec, suite), |wire|, free)
  {
    var w := Speaking(envC, session);
    var list := Offer(Spec(session, spec));
    HelloDataIs(envC, session, spec);
    HelloDataSize(envC, session, spec);
    hide Offer, Be2, NewClient, ClientHelloBody, HandshakeData, Speaking, GoodEnv, Sound, LookupSession, PickSuite,
         Answer;
    HelloHandled(c, envS, w, list, suite, free);
    hide HelloData;
  }

  lemma HelloDataIs(env: Env, session: Option<SessionId>, spec: nat)
    requires GoodEnv(env) && KnownSpec(spec)
    ensures var w := Speaking(env, session);
            var list := Offer(Spec(session, spec));
            && HelloData(env, session, spec) == HandshakeData(1, ClientHelloBody(w, Be2(|list|) + list))
            && w.ver.maj == 3 && w.ver.min == 0 && |w.sec.clientRandom| == RANDOM_SIZE && w.sid.len <= SESSION_ID_SIZE
            && 0 < |list| <= 6 && |list| % 2 == 0
  {
    NewClientGives(session);
    HelloDataSize(env, session, spec);
    OfferPicked(NewClient(None), Spec(session, spec));
    hide Offer, Be2, NewClient, ClientHelloBody;
  }

  lemma HelloHandled(c: Crypto, env: Env, w: Sess, list: Octets, suite: Suite, free: nat)
    requires Sound(c) && 0x10000 <= free
    requires w.ver.maj == 3 && w.ver.min == 0 && |w.sec.clientRandom| == RANDOM_SIZE && w.sid.len <= SESSION_ID_SIZE
    requires 0 < |list| <= 6 && |list| % 2 == 0
    requires |HandshakeData(1, ClientHelloBody(w, Be2(|list|) + list))| < 0x80
    requires var data := HandshakeData(1, ClientHelloBody(w, Be2(|list|) + list));
             var s := NewServer().(ver := Ver(3, 0, 3, 0),
                                   sec := NewServer().sec.(clientRandom := w.sec.clientRandom, transcript := data));
             PickSuite(LookupSession(env, s, w.sid.id[..w.sid.len]), list) == Some(suite)
    ensures var data := HandshakeData(1, ClientHelloBody(w, Be2(|list|) + list));
            var s := NewServer().(ver := Ver(3, 0, 3, 0),
                                  sec := NewServer().sec.(clientRandom := w.sec.clientRandom, transcript := data));
            var t := LookupSession(env, s, w.sid.id[..w.sid.len]);
            var heard := t.(cipher := suite,
                            hsState := if t.flags.resumed then HS_FINISHED else HS_CLIENT_KEY_EXCHANGE);
            Step(c, env, NewServer(), Bare(HANDSHAKE, data), free)
                == Answer(c, env, heard, |Bare(HANDSHAKE, data)|, free)
  {
    hide Be2, ClientHelloBody, Sound, LookupSession, PickSuite, Answer, Step, Handle, ClientHello, FinishedHash, Repeat;
    var body := ClientHelloBody(w, Be2(|list|) + list);
    var data := HandshakeData(1, body);
    assert |data| == HS_HEADER + |body| && Bare(HANDSHAKE, data) + [] == Bare(HANDSHAKE, data);
    hide HandshakeData;
    PlainPass(c, env, NewServer(), HANDSHAKE, data, [], free);
    OneMessageHandled(c, env, NewServer(), |data|, 1, body, HEADER + |data|, free);
    assert [] + data == data;
    ClientHelloRead(env, Hash(NewServer(), data), w, list);
  }

  // ---------------------------------------------------------------------------
  // ServerHello
  // ---------------------------------------------------------------------------

  function ServerHelloData(w: Sess): Octets
    requires w.sid.len <= SESSION_ID_SIZE
  {
    HandshakeData(2, ServerHelloBody(w))
  }

  lemma PreparedGives(env: Env, s: Sess)
    requires GoodEnv(env) && PlainWriter(s) && s.sid.len <= SESSION_ID_SIZE
    ensures var w := PrepareServerHello(env, s);
            && w == s.(sec := s.sec.(serverRandom := w.sec.serverRandom), sid := w.sid, draws := s.draws + 1)
            && |w.sec.serverRandom| == RANDOM_SIZE && w.sid.len <= SESSION_ID_SIZE && PlainWriter(w)
            && (s.flags.resumed ==> w.sid == s.sid)
            && |ServerHelloData(w)| == HS_HEADER + 38 + w.sid.len
  {
    hide Repeat;
  }

  lemma ServerHelloWritten(c: Crypto, env: Env, s: Sess, free: int)
    requires Sound(c) && GoodEnv(env) && PlainWriter(s) && s.sid.len <= SESSION_ID_SIZE && free >= 0x100
    ensures var w := PrepareServerHello(env, s);
            var said := Hash(w, ServerHelloData(w));
            WriteServerHello(c, env, s, free)
            == Wrote(if s.flags.resumed then DeriveKeys(c, said) else said, Bare(HANDSHAKE, ServerHelloData(w)))
  {
    PreparedGives(env, s);
    var w := PrepareServerHello(env, s);
    PlainWrite(c, w, HANDSHAKE, ServerHelloData(w), free);
    hide Sound, GoodEnv, WriteRecord, PrepareServerHello, DeriveKeys, HandshakeData, ServerHelloBody, Bare;
    assert w.flags == s.flags;
  }

  // The client does not take the server's id for its own session's; it compares as many bytes
  // as the server sent.
  ghost predicate Unlike(own: Sid, id: Octets) {
    |id| <= SESSION_ID_SIZE && (own.len == 0 || id == [] || own.id[..|id|] != id)
  }

  ghost predicate NotResuming(r: Sess, w: Sess) {
    w.sid.len <= SESSION_ID_SIZE && Unlike(r.sid, w.sid.id[..w.sid.len])
  }

  lemma AdoptNew(s: Sess, id: Octets)
    requires !s.flags.resumed && Unlike(s.sid, id)
    ensures var t := AdoptSession(s, id);
            t == s.(cipher := t.cipher, sec := s.sec.(master := t.sec.master), sid := t.sid)
  {
    hide Repeat;
    assert s.flags.(resumed := false) == s.flags;
  }

  lemma AdoptSame(s: Sess, id: Octets)
    requires |id| == SESSION_ID_SIZE && s.sid.len == SESSION_ID_SIZE && s.sid.id == id
    ensures AdoptSession(s, id) == s.(flags := s.flags.(resumed := true))
  {
    hide Repeat;
    assert s.sid.id[..SESSION_ID_SIZE] == s.sid.id;
  }

  // A client that has spoken, reading the ServerHello of a full handshake.
  lemma ClientHearsHello(c: Crypto, env: Env, r: Sess, w: Sess, rest: Octets, free: nat) returns (r1: Sess)
    requires Sound(c) && PlainReader(r) && r.hsState == HS_SERVER_HELLO && !r.flags.resumed && Usable(r)
             && r.ver.maj == 3
    requires PlainWriter(w) && |w.sec.serverRandom| == RANDOM_SIZE && NotResuming(r, w) && 0x10000 <= free
    ensures Step(c, env, r, Bare(HANDSHAKE, ServerHelloData(w)) + rest, free)
         == Return(r1, HEADER + |ServerHelloData(w)|, Success)
    ensures Usable(r1)
    ensures r1 == r.(hsState := HS_CERTIFICATE, ver := r.ver.(reqMaj := 3, reqMin := 0), cipher := w.cipher,
                     sid := r1.sid,
                     sec := r.sec.(serverRandom := w.sec.serverRandom, master := r1.sec.master,
                                   transcript := r.sec.transcript + ServerHelloData(w)))
  {
    var body := ServerHelloBody(w);
    var data := ServerHelloData(w);
    var id := w.sid.id[..w.sid.len];
    var r0 := Hash(r, data);
    ServerHelloRead(c, r0, w);
    hide Sound, AdoptSession, ServerHelloSuite, ServerHelloBody, FinishedHash, Step, Handle, ServerHello, Answer;
    assert |data| == HS_HEADER + |body|;
    PlainPass(c, env, r, HANDSHAKE, data, rest, free);
    OneMessageHandled(c, env, r, |data|, 2, body, HEADER + |data|, free);
    hide HandshakeData;
    var s1 := r0.(ver := r0.ver.(reqMaj := 3, reqMin := 0), sec := r0.sec.(serverRandom := w.sec.serverRandom));
    AdoptNew(s1, id);
    var s2 := AdoptSession(s1, id);
    SuiteRead(c, s2, w.cipher, 35 + |id|);
    r1 := s2.(cipher := w.cipher, hsState := HS_CERTIFICATE);
  }

  // A client that asked to resume, reading the ServerHello that agrees to it.
  function Resumed(c: Crypto, r: Sess, w: Sess): Sess
    requires Sound(c) && w.sid.len <= SESSION_ID_SIZE
  {
    DeriveKeys(c, r.(ver := r.ver.(reqMaj := 3, reqMin := 0), flags := r.flags.(resumed := true),
                     sec := r.sec.(serverRandom := w.sec.serverRandom,
                                   transcript := r.sec.transcript + ServerHelloData(w)))).(hsState := HS_FINISHED)
  }

  lemma ClientHearsResumption(c: Crypto, env: Env, r: Sess, w: Sess, rest: Octets, free: nat)
    requires Sound(c) && PlainReader(r) && r.hsState == HS_SERVER_HELLO && r.ver.maj == 3
    requires PlainWriter(w) && |w.sec.serverRandom| == RANDOM_SIZE && 0x10000 <= free
    requires r.sid == w.sid && r.sid.len == SESSION_ID_SIZE && r.cipher == w.cipher
    ensures Step(c, env, r, Bare(HANDSHAKE, ServerHelloData(w)) + rest, free)
         == Return(Resumed(c, r, w), HEADER + |ServerHelloData(w)|, Success)
  {
    var body := ServerHelloBody(w);
    var data := ServerHelloData(w);
    var id := w.sid.id[..w.sid.len];
    var r0 := Hash(r, data);
    ServerHelloRead(c, r0, w);
    hide Sound, ServerHelloSuite, AdoptSession, ServerHelloBody, FinishedHash, Step, Handle, ServerHello, Answer,
         DeriveKeys;
    assert |data| == HS_HEADER + |body|;
    PlainPass(c, env, r, HANDSHAKE, data, rest, free);
    OneMessageHandled(c, env, r, |data|, 2, body, HEADER + |data|, free);
    hide HandshakeData;
    var s1 := r0.(ver := r0.ver.(reqMaj := 3, reqMin := 0), sec := r0.sec.(serverRandom := w.sec.serverRandom));
    assert id == w.sid.id;
    AdoptSame(s1, id);
    SuiteRead(c, s1.(flags := s1.flags.(resumed := true)), w.cipher, 35 + |id|);
  }

  // ---------------------------------------------------------------------------
  // Certificate, ServerHelloDone
  // ---------------------------------------------------------------------------

  function CertificateData(certs: seq<Octets>): Octets {
    HandshakeData(11, CertificateBody(certs))
  }

  const DONE_DATA: Octets := HandshakeData(14, [])

  ghost predicate ChainFits(certs: seq<Octets>) {
    HS_HEADER + 3 + TotalLength(certs) + 3 * |certs| < 0x10000
  }

  lemma CertificateDataSize(certs: seq<Octets>)
    ensures |CertificateBody(certs)| == 3 + TotalLength(certs) + 3 * |certs|
    ensures |CertificateData(certs)| == HS_HEADER + 3 + TotalLength(certs) + 3 * |certs|
    ensures |DONE_DATA| == HS_HEADER
  {
    EntriesLength(certs);
    hide CertificateEntries, TotalLength;
  }

  lemma ClientHearsCertificate(c: Crypto, env: Env, r: Sess, certs: seq<Octets>, pub: PubKey, rest: Octets, free: nat)
    requires Sound(c) && PlainReader(r) && r.hsState == HS_CERTIFICATE && 0x10000 <= free
    requires Presents(env, certs, pub) && ChainFits(certs)
    ensures Step(c, env, r, Bare(HANDSHAKE, CertificateData(certs)) + rest, free)
         == Return(r.(hsState := HS_SERVER_HELLO_DONE,
                      sec := r.sec.(cert := Some(pub), transcript := r.sec.transcript + CertificateData(certs))),
                   HEADER + |CertificateData(certs)|, Success)
  {
    CertificateDataSize(certs);
    hide Sound, CertificateBody, FinishedHash, Step, Handle, Answer, Certificate, Presents, TotalLength;
    var data := CertificateData(certs);
    PlainPass(c, env, r, HANDSHAKE, data, rest, free);
    OneMessageHandled(c, env, r, |data|, 11, CertificateBody(certs), HEADER + |data|, free);
    hide HandshakeData;
    CertificateRead(env, Hash(r, data), certs, pub);
  }

  lemma ClientHearsDone(c: Crypto, env: Env, r: Sess, free: nat)
    requires Sound(c) && PlainReader(r) && r.hsState == HS_SERVER_HELLO_DONE && 0x10000 <= free
    ensures Step(c, env, r, Bare(HANDSHAKE, DONE_DATA), free)
         == Answer(c, env, r.(hsState := HS_FINISHED, sec := r.sec.(transcript := r.sec.transcript + DONE_DATA)),
                   HEADER + HS_HEADER, free)
  {
    CertificateDataSize([]);
    hide Sound, FinishedHash, Step, Handle, Answer;
    assert Bare(HANDSHAKE, DONE_DATA) + [] == Bare(HANDSHAKE, DONE_DATA);
    PlainPass(c, env, r, HANDSHAKE, DONE_DATA, [], free);
    OneMessageHandled(c, env, r, HS_HEADER, 14, [], HEADER + HS_HEADER, free);
  }

  // The server's three records, and its state after them.
  function HelloOut(certs: seq<Octets>, w: Sess): Octets
    requires w.sid.len <= SESSION_ID_SIZE
  {
    Bare(HANDSHAKE, ServerHelloData(w)) + Bare(HANDSHAKE, CertificateData(certs)) + Bare(HANDSHAKE, DONE_DATA)
  }

  function HelloSent(certs: seq<Octets>, w: Sess): Sess
    requires w.sid.len <= SESSION_ID_SIZE
  {
    w.(sec := w.sec.(transcript := w.sec.transcript + ServerHelloData(w) + CertificateData(certs) + DONE_DATA))
  }

  lemma ServerSpeaks(c: Crypto, env: Env, s: Sess, used: nat, free: nat)
    requires Sound(c) && GoodEnv(env) && [] !in env.certs && ChainFits(env.certs)
    requires PlainWriter(s) && s.sid.len <= SESSION_ID_SIZE && !s.flags.resumed && s.err == ALERT_NONE
    requires s.hsState == HS_CLIENT_KEY_EXCHANGE && free >= 0x10100
    ensures PrepareServerHello(env, s).sid.len <= SESSION_ID_SIZE
    ensures var w := PrepareServerHello(env, s);
            Answer(c, env, s, used, free) == Return(HelloSent(env.certs, w), used, Respond(HelloOut(env.certs, w)))
  {
    PreparedGives(env, s);
    CertificateDataSize(env.certs);
    var w := PrepareServerHello(env, s);
    var w1 := Hash(w, ServerHelloData(w));
    var w2 := Hash(w1, CertificateData(env.certs));
    hide Sound, GoodEnv, PrepareServerHello, WriteServerHello, WriteRecord, HandshakeData, ServerHelloBody,
         CertificateBody, Bare;
    ServerHelloWritten(c, env, s, free);
    PlainWrite(c, w, HANDSHAKE, ServerHelloData(w), free);
    PlainWrite(c, w1, HANDSHAKE, CertificateData(env.certs), free - |Bare(HANDSHAKE, ServerHelloData(w))|);
    PlainWrite(c, w2, HANDSHAKE, DONE_DATA,
               free - |Bare(HANDSHAKE, ServerHelloData(w))| - |Bare(HANDSHAKE, CertificateData(env.certs))|);
    HelloSizeBound(env, s);
    assert HelloRecords(c, env, s, free) == Wrote(HelloSent(env.certs, w), HelloOut(env.certs, w));
    hide HelloRecords, HelloSent, HelloOut, HelloFlightSize;
    assert w.err == ALERT_NONE;
    SentKeeps(env.certs, w);
  }

  lemma SentKeeps(certs: seq<Octets>, w: Sess)
    requires w.sid.len <= SESSION_ID_SIZE
    ensures HelloSent(certs, w).err == w.err
  {
    hide ServerHelloData, CertificateData;
  }

  lemma HelloSizeBound(env: Env, s: Sess)
    requires ChainFits(env.certs) && PlainWriter(s)
    ensures HelloFlightSize(env, s) <= 0x10100
  {
  }

  // ---------------------------------------------------------------------------
  // ClientKeyExchange
  // ---------------------------------------------------------------------------

  function Premaster(env: Env, r: Sess): Octets {
    [r.ver.reqMaj, r.ver.reqMin] + env.entropy(r.draws, PREMASTER_SIZE - 2)
  }

  function KeyData(c: Crypto, pub: PubKey, secret: Octets): Octets {
    HandshakeData(16, c.encPub(pub, secret))
  }

  // The client's state after its key exchange message, and the server's.
  function Keyed(c: Crypto, s: Sess, secret: Octets, data: Octets): Sess
    requires Sound(c)
  {
    DeriveKeys(c, s.(sec := s.sec.(premaster := secret, transcript := s.sec.transcript + data)))
  }

  lemma KeyDataSize(c: Crypto, pub: PubKey, secret: Octets)
    requires Sound(c)
    ensures |KeyData(c, pub, secret)| == HS_HEADER + pub.size
  {
  }

  lemma KeyedGives(c: Crypto, s: Sess, secret: Octets, data: Octets)
    requires Sound(c)
    ensures var t := Keyed(c, s, secret, data);
            && t.flags == s.flags && t.hsState == s.hsState && t.err == s.err && t.ver == s.ver
            && t.cipher == s.cipher && t.en == s.en && t.de == s.de && t.sid == s.sid
            && t.sec.transcript == s.sec.transcript + data
  {
    DeriveKeysGives(c, s.(sec := s.sec.(premaster := secret, transcript := s.sec.transcript + data)));
    hide Sound, DeriveKeys;
  }

  lemma KeyExchangeWritten(c: Crypto, env: Env, r: Sess, pub: PubKey, free: int)
    requires Sound(c) && PlainWriter(r) && !r.cipher.NullSuite? && r.sec.cert == Some(pub)
    requires HEADER + HS_HEADER + pub.size <= free
    ensures var secret := Premaster(env, r);
            var data := KeyData(c, pub, secret);
            WriteClientKeyExchange(c, env, r, free)
            == Wrote(Keyed(c, r.(draws := r.draws + 1), secret, data), Bare(HANDSHAKE, data))
  {
    var secret := Premaster(env, r);
    var data := KeyData(c, pub, secret);
    KeyDataSize(c, pub, secret);
    PlainWrite(c, r.(draws := r.draws + 1, sec := r.sec.(premaster := secret)), HANDSHAKE, data, free);
    PlainOverhead();
    hide Sound, WriteRecord, HandshakeData, Bare, DeriveKeys, Overhead;
  }

  lemma KeyRecordsWritten(c: Crypto, env: Env, r: Sess, pub: PubKey, free: int)
    requires Sound(c) && PlainWriter(r) && !r.cipher.NullSuite? && r.sec.cert == Some(pub)
    requires 0x10200 <= free && HS_HEADER + pub.size < 0x10000
    ensures var secret := Premaster(env, r);
            var data := KeyData(c, pub, secret);
            var a := Keyed(c, r.(draws := r.draws + 1), secret, data);
            KeyRecords(c, env, r, free) == Wrote(ClosedWriter(c, a), Bare(HANDSHAKE, data) + ClosingRecords(c, a))
  {
    var secret := Premaster(env, r);
    var data := KeyData(c, pub, secret);
    KeyExchangeWritten(c, env, r, pub, free);
    KeyDataSize(c, pub, secret);
    var a := Keyed(c, r.(draws := r.draws + 1), secret, data);
    KeyedGives(c, r.(draws := r.draws + 1), secret, data);
    hide Sound, WriteClientKeyExchange, Keyed, Premaster, KeyData, Header, FinalRecords, ClosingRecords, ClosedWriter;
    ClosingWritten(c, a, free - |Bare(HANDSHAKE, data)|);
  }

  lemma ClientKeys(c: Crypto, env: Env, r: Sess, pub: PubKey, used: nat, free: nat)
    requires Sound(c) && PlainWriter(r) && r.err == ALERT_NONE && !r.cipher.NullSuite?
    requires r.hsState == HS_FINISHED && !r.flags.server && r.sec.cert == Some(pub)
    requires HS_HEADER + pub.size < 0x10000 && 0x10200 <= free
    ensures var secret := Premaster(env, r);
            var data := KeyData(c, pub, secret);
            var a := Keyed(c, r.(draws := r.draws + 1), secret, data);
            Answer(c, env, r, used, free)
                == Return(ClosedWriter(c, a), used, Respond(Bare(HANDSHAKE, data) + ClosingRecords(c, a)))
  {
    hide Sound, KeyRecords, Keyed, Premaster, KeyData, ClosingRecords, ClosedWriter, KeyFlightSize, PlainWriter, Bare;
    var data := KeyData(c, pub, Premaster(env, r));
    var a := Keyed(c, r.(draws := r.draws + 1), Premaster(env, r), data);
    KeyRecordsWritten(c, env, r, pub, free);
    KeySizeBound(r, pub.size);
    KeyedGives(c, r.(draws := r.draws + 1), Premaster(env, r), data);
    ClosedKeeps(c, a);
  }

  lemma PlainOverhead()
    ensures forall n: nat :: Overhead(NullSuite, n) == 0
  {
  }

  lemma ClosedKeeps(c: Crypto, w: Sess)
    ensures ClosedWriter(c, w).err == w.err
  {
    hide ClosedHalf, FinishedData;
  }

  lemma KeySizeBound(r: Sess, size: nat)
    requires PlainWriter(r) && HS_HEADER + size < 0x10000
    ensures KeyFlightSize(r, size) <= 0x10200
  {
  }

  lemma ServerHearsKeys(c: Crypto, env: Env, s: Sess, pub: PubKey, secret: Octets, rest: Octets, free: nat)
    requires Sound(c) && KeyPair(c, pub, env.priv) && PlainReader(s) && s.hsState == HS_CLIENT_KEY_EXCHANGE
    requires |secret| == PREMASTER_SIZE && secret[0] == s.ver.reqMaj && secret[1] == s.ver.reqMin
    requires HS_HEADER + pub.size < 0x10000 <= free
    ensures var data := KeyData(c, pub, secret);
            Step(c, env, s, Bare(HANDSHAKE, data) + rest, free)
            == Return(Keyed(c, s, secret, data).(hsState := HS_FINISHED), HEADER + |data|, Success)
  {
    var data := KeyData(c, pub, secret);
    KeyDataSize(c, pub, secret);
    KeyExchangeRead(c, env, Hash(s, data), pub, secret);
    var body := c.encPub(pub, secret);
    assert |body| == pub.size;
    hide Sound, KeyPair, FinishedHash, Step, Handle, Answer, DeriveKeys, ClientKeyExchange;
    PlainPass(c, env, s, HANDSHAKE, data, rest, free);
    OneMessageHandled(c, env, s, |data|, 16, body, HEADER + |data|, free);
    hide HandshakeData;
  }

  // ---------------------------------------------------------------------------
  // The full exchange
  // ---------------------------------------------------------------------------

  // What the surroundings must offer: sound primitives, a chain the client accepts and that
  // fits a record, and a key whose encrypted secret fits one too.
  ghost predicate Setting(c: Crypto, envC: Env, envS: Env, pub: PubKey) {
    && Sound(c) && GoodEnv(envC) && GoodEnv(envS) && KeyPair(c, pub, envS.priv)
    && Presents(envC, envS.certs, pub) && ChainFits(envS.certs)
    && HS_HEADER + pub.size < 0x10000
  }

  // The server does not know the session the client would resume.
  ghost predicate Forgotten(env: Env, session: Option<SessionId>) {
    NewClient(session).sid.len > 0 ==> env.resume(0, NewClient(session).sid.id) == None
  }

  // A client that has heard the ServerHello, up to its key exchange.
  ghost predicate Heard(r: Sess, was: Sess, w: Sess, pub: PubKey, said: Octets) {
    && Usable(r) && PlainWriter(r) && PlainReader(r) && r.err == ALERT_NONE && !r.flags.server && !r.flags.resumed
    && r.hsState == HS_FINISHED && r.cipher == w.cipher && r.ver == Ver(3, 0, 3, 0)
    && r.sec.cert == Some(pub) && r.sec.clientRandom == was.sec.clientRandom && r.sec.serverRandom == w.sec.serverRandom
    && r.sec.transcript == was.sec.transcript + said
  }

  ghost predicate Waiting(r: Sess) {
    && Usable(r) && PlainWriter(r) && PlainReader(r) && r.err == ALERT_NONE && !r.flags.server && !r.flags.resumed
    && r.hsState == HS_SERVER_HELLO
  }

  // The client over the server's flight, up to the last record.
  lemma ClientReads(c: Crypto, env: Env, r: Sess, w: Sess, certs: seq<Octets>, pub: PubKey, free: nat)
    returns (r2: Sess, r3: Sess)
    requires Sound(c) && Waiting(r) && PlainWriter(w) && |w.sec.serverRandom| == RANDOM_SIZE && NotResuming(r, w)
    requires Presents(env, certs, pub) && ChainFits(certs) && 0x10000 <= free
    ensures Heard(r3, r, w, pub, ServerHelloData(w) + CertificateData(certs) + DONE_DATA)
    ensures var done := Bare(HANDSHAKE, DONE_DATA);
            Usable(r2)
            && Drain(c, env, Conn(r, HelloOut(certs, w), [], false), free)
               == Drain(c, env, Conn(r2, done, [], false), free)
            && Step(c, env, r2, done, free) == Answer(c, env, r3, |done|, free)
  {
    hide Sound, Presents, ChainFits, Step, Drain, Answer, HandshakeData, ServerHelloBody, CertificateBody, TotalLength,
         Header;
    var d1, d2, done := Bare(HANDSHAKE, ServerHelloData(w)), Bare(HANDSHAKE, CertificateData(certs)),
        Bare(HANDSHAKE, DONE_DATA);
    var r1 := ClientHearsHello(c, env, r, w, d2 + done, free);
    DrainOver(c, env, r, d1, d2 + done, r1, free);
    ClientHearsCertificate(c, env, r1, certs, pub, done, free);
    r2 := r1.(hsState := HS_SERVER_HELLO_DONE,
              sec := r1.sec.(cert := Some(pub), transcript := r1.sec.transcript + CertificateData(certs)));
    DrainOver(c, env, r1, d2, done, r2, free);
    ClientHearsDone(c, env, r2, free);
    CertificateDataSize(certs);
    r3 := r2.(hsState := HS_FINISHED, sec := r2.sec.(transcript := r2.sec.transcript + DONE_DATA));
    assert HelloOut(certs, w) == d1 + (d2 + done);
    assert r3.sec.transcript == r.sec.transcript + (ServerHelloData(w) + CertificateData(certs) + DONE_DATA);
  }

  lemma ClientFlight(c: Crypto, env: Env, r: Sess, w: Sess, certs: seq<Octets>, pub: PubKey, free: nat)
    returns (r3: Sess)
    requires Sound(c) && GoodEnv(env) && Waiting(r) && PlainWriter(w) && |w.sec.serverRandom| == RANDOM_SIZE
             && NotResuming(r, w)
    requires Presents(env, certs, pub) && ChainFits(certs) && HS_HEADER + pub.size < 0x10000 && 0x10200 <= free
    requires !w.cipher.NullSuite?
    ensures Heard(r3, r, w, pub, ServerHelloData(w) + CertificateData(certs) + DONE_DATA)
    ensures var secret := Premaster(env, r3);
            var data := KeyData(c, pub, secret);
            var a := Keyed(c, r3.(draws := r3.draws + 1), secret, data);
            Drain(c, env, Conn(r, HelloOut(certs, w), [], false), free)
            == Conn(ClosedWriter(c, a), [], [Respond(Bare(HANDSHAKE, data) + ClosingRecords(c, a))], false)
  {
    var r2: Sess;
    r2, r3 := ClientReads(c, env, r, w, certs, pub, free);
    var secret := Premaster(env, r3);
    var data := KeyData(c, pub, secret);
    var a := Keyed(c, r3.(draws := r3.draws + 1), secret, data);
    ClientKeys(c, env, r3, pub, |Bare(HANDSHAKE, DONE_DATA)|, free);
    KeyedGives(c, r3.(draws := r3.draws + 1), secret, data);
    WritableUsable(c, a);
    hide Sound, Presents, ChainFits, Step, Drain, Answer, HandshakeData, ServerHelloBody, CertificateBody, TotalLength,
         Header;
    hide Keyed, KeyData, Premaster, ClosedWriter, ClosingRecords, HelloOut;
    var done := Bare(HANDSHAKE, DONE_DATA);
    DrainAnswer(c, env, r2, done, ClosedWriter(c, a), Bare(HANDSHAKE, data) + ClosingRecords(c, a), free);
  }

  // Both ends are ready to close once the key exchange message has crossed.
  lemma KeysMatch(c: Crypto, r: Sess, s: Sess, secret: Octets, data: Octets)
    requires Sound(c)
    requires Usable(r) && PlainWriter(r) && PlainReader(r) && r.err == ALERT_NONE && !r.flags.server && !r.flags.resumed
    requires r.hsState == HS_FINISHED && r.ver.maj == 3 && r.ver.min == 0
    requires Usable(s) && PlainWriter(s) && PlainReader(s) && s.err == ALERT_NONE && s.flags.server && !s.flags.resumed
    requires s.ver.maj == 3 && s.ver.min == 0
    requires r.cipher == s.cipher && !s.cipher.NullSuite? && r.sec.transcript == s.sec.transcript
    requires r.sec.clientRandom == s.sec.clientRandom && r.sec.serverRandom == s.sec.serverRandom
    ensures ReadyToClose(Keyed(c, r, secret, data), Keyed(c, s, secret, data).(hsState := HS_FINISHED))
  {
    KeyedGives(c, r, secret, data);
    KeyedGives(c, s, secret, data);
    DerivedMirror(c, r.(sec := r.sec.(premaster := secret, transcript := r.sec.transcript + data)),
                     s.(sec := s.sec.(premaster := secret, transcript := s.sec.transcript + data)));
    hide Sound, DeriveKeys, Mirrored;
  }

  // The server after its hello flight.
  ghost predicate Spoken(s: Sess, w: Sess, cr: Octets, said: Octets) {
    && Usable(s) && PlainWriter(s) && PlainReader(s) && s.err == ALERT_NONE && s.flags.server && !s.flags.resumed
    && s.hsState == HS_CLIENT_KEY_EXCHANGE && s.cipher == w.cipher && s.ver == Ver(3, 0, 3, 0)
    && s.sec.clientRandom == cr && s.sec.serverRandom == w.sec.serverRandom
    && s.sec.transcript == said
  }

  // The second round: the server over the client's flight, the client over the server's.
  lemma KeysAndClose(c: Crypto, envC: Env, envS: Env, r: Sess, s: Sess, was: Sess, w: Sess, pub: PubKey, said: Octets,
                     free: nat)
    requires Sound(c) && GoodEnv(envC) && KeyPair(c, pub, envS.priv) && HS_HEADER + pub.size < 0x10000 <= free
    requires Heard(r, was, w, pub, said) && Spoken(s, w, was.sec.clientRandom, was.sec.transcript + said)
             && !w.cipher.NullSuite?
    ensures var secret := Premaster(envC, r);
            var data := KeyData(c, pub, secret);
            var a := Keyed(c, r.(draws := r.draws + 1), secret, data);
            var out := Bare(HANDSHAKE, data) + ClosingRecords(c, a);
            var p := Round(c, envC, envS, Peers(ClosedWriter(c, a), s, out), free);
            p.Some? && p.value.toServer == [] && Established(p.value.client, p.value.server, w.cipher)
            && !p.value.client.flags.resumed && !p.value.server.flags.resumed
  {
    var secret := Premaster(envC, r);
    assert |secret| == PREMASTER_SIZE && secret[0] == 3 && secret[1] == 0;
    var data := KeyData(c, pub, secret);
    var r1 := r.(draws := r.draws + 1);
    var a := Keyed(c, r1, secret, data);
    var b := Keyed(c, s, secret, data).(hsState := HS_FINISHED);
    hide Sound, GoodEnv, KeyPair, Step, Drain, Header, KeyData, Premaster;
    KeysMatch(c, r1, s, secret, data);
    KeyedGives(c, s, secret, data);
    KeyedGives(c, r1, secret, data);
    hide Keyed;
    ServerHearsKeys(c, envS, s, pub, secret, ClosingRecords(c, a), free);
    DrainOver(c, envS, s, Bare(HANDSHAKE, data), ClosingRecords(c, a), b, free);
    CloseRound(c, envC, envS, a, b, s, Bare(HANDSHAKE, data) + ClosingRecords(c, a), free);
  }

  lemma CloseRound(c: Crypto, envC: Env, envS: Env, a: Sess, b: Sess, s: Sess, input: Octets, free: nat)
    requires Sound(c) && ReadyToClose(a, b) && 0x10000 <= free
    requires Drain(c, envS, Conn(s, input, [], false), free)
             == Drain(c, envS, Conn(b, ClosingRecords(c, a), [], false), free)
    ensures var p := Round(c, envC, envS, Peers(ClosedWriter(c, a), s, input), free);
            p.Some? && p.value.toServer == [] && Established(p.value.client, p.value.server, a.cipher)
            && p.value.client.flags.resumed == a.flags.resumed && p.value.server.flags.resumed == b.flags.resumed
  {
    var b1 := ClosedReader(c, a, b);
    var a1 := ClosedWriter(c, a);
    SecondCloses(c, envS, a, b, free);
    TurnAnswers(c, envS, s, input, ClosedWriter(c, b1), ClosingRecords(c, b1), free);
    FirstEnds(c, envC, a, b, free);
    TurnEnds(c, envC, a1, ClosingRecords(c, b1), ClosedReader(c, b1, a1), free);
    ClosingEstablishes(c, a, b);
    hide Sound, Drain, Turn, ReadyToClose, Established, ClosingRecords, ClosedHalf, FinishedData;
  }

  // The server answers a hello that does not resume.
  lemma GreetedAnew(envC: Env, envS: Env, session: Option<SessionId>, spec: nat)
    requires GoodEnv(envC) && Forgotten(envS, session) && KnownSpec(spec)
    ensures var g := Greeted(envC, envS, session, spec);
            var w := Speaking(envC, session);
            && Usable(g) && PlainWriter(g) && PlainReader(g.(hsState := HS_CLIENT_KEY_EXCHANGE)) && g.err == ALERT_NONE
               && g.flags.server && !g.flags.resumed
            && g.ver == Ver(3, 0, 3, 0) && g.sid.len == 0
            && g.sec.clientRandom == w.sec.clientRandom && g.sec.transcript == HelloData(envC, session, spec)
    ensures PickSuite(Greeted(envC, envS, session, spec), Offer(Spec(session, spec)))
            == Some(Agreed(Spec(session, spec)))
    ensures !Agreed(Spec(session, spec)).NullSuite?
  {
    NewClientGives(session);
    HelloDataSize(envC, session, spec);
    var w := Speaking(envC, session);
    var id := w.sid.id[..w.sid.len];
    var s := NewServer().(ver := Ver(3, 0, 3, 0),
                          sec := NewServer().sec.(clientRandom := w.sec.clientRandom,
                                                  transcript := HelloData(envC, session, spec)));
    hide Repeat, HelloData, NewClient, Offer, PickSuite, Agreed, GetCipherSpec, Spec;
    OfferPicked(Greeted(envC, envS, session, spec), Spec(session, spec));
    if id != [] {
      assert (id + s.sid.id[|id|..])[..|id|] == id == w.sid.id;
    }
  }

  lemma HelloSentGives(certs: seq<Octets>, w: Sess, s: Sess)
    requires Usable(s) && PlainWriter(s) && PlainReader(s) && s.err == ALERT_NONE && s.flags.server && !s.flags.resumed
    requires s.hsState == HS_CLIENT_KEY_EXCHANGE && s.ver == Ver(3, 0, 3, 0) && w.sid.len <= SESSION_ID_SIZE
    requires w == s.(sec := s.sec.(serverRandom := w.sec.serverRandom), sid := w.sid, draws := s.draws + 1)
    ensures Spoken(HelloSent(certs, w), w, s.sec.clientRandom,
                   s.sec.transcript + (ServerHelloData(w) + CertificateData(certs) + DONE_DATA))
  {
    hide ServerHelloData, CertificateData;
    var t := s.sec.transcript;
    assert t + ServerHelloData(w) + CertificateData(certs) + DONE_DATA
           == t + (ServerHelloData(w) + CertificateData(certs) + DONE_DATA);
  }

  lemma SettingGives(c: Crypto, envC: Env, envS: Env, pub: PubKey)
    requires Setting(c, envC, envS, pub)
    ensures Sound(c) && GoodEnv(envC) && GoodEnv(envS) && KeyPair(c, pub, envS.priv)
    ensures Presents(envC, envS.certs, pub) && ChainFits(envS.certs) && HS_HEADER + pub.size < 0x10000
  {
  }

  lemma PrepareIgnores(env: Env, s: Sess, suite: Suite, hsState: int)
    ensures PrepareServerHello(env, s.(cipher := suite, hsState := hsState)).sid == PrepareServerHello(env, s).sid
  {
    hide Repeat;
  }

  // How both stand when the server has the ClientHello of a full exchange.
  lemma FullStart(c: Crypto, envC: Env, envS: Env, session: Option<SessionId>, spec: nat, suite: Suite)
    requires GoodEnv(envC) && Forgotten(envS, session) && KnownSpec(spec) && KnownSpec(Spec(session, spec))
    requires suite == Agreed(Spec(session, spec))
    requires NotResuming(NewClient(session), PrepareServerHello(envS, Greeted(envC, envS, session, spec)))
    ensures var g := Greeting(envC, envS, session, spec, suite);
            var c1 := Hash(Speaking(envC, session), HelloData(envC, session, spec));
            && Waiting(c1) && c1.sec.transcript == g.sec.transcript && c1.sec.clientRandom == g.sec.clientRandom
            && Usable(g) && PlainWriter(g) && PlainReader(g) && g.err == ALERT_NONE && g.flags.server
               && !g.flags.resumed
            && g.hsState == HS_CLIENT_KEY_EXCHANGE && g.ver == Ver(3, 0, 3, 0) && g.sid.len <= SESSION_ID_SIZE
               && g.cipher == suite
            && !suite.NullSuite? && NotResuming(c1, PrepareServerHello(envS, g))
    ensures PickSuite(Greeted(envC, envS, session, spec), Offer(Spec(session, spec))) == Some(suite)
  {
    hide HelloData, NewClient, Offer, PickSuite, Agreed, GetCipherSpec, Spec, Greeted, PrepareServerHello, GoodEnv;
    GreetedAnew(envC, envS, session, spec);
    NewClientGives(session);
    PrepareIgnores(envS, Greeted(envC, envS, session, spec), suite, HS_CLIENT_KEY_EXCHANGE);
  }

  // Whatever suite the client asks for, and whether or not it first tried to resume a session the
  // server has forgotten, both sides end established.
  lemma FullSucceeds(c: Crypto, envC: Env, envS: Env, session: Option<SessionId>, spec: nat, pub: PubKey, free: nat)
    requires Setting(c, envC, envS, pub) && KnownSpec(spec) && 0x10200 <= free
    requires Forgotten(envS, session)
    requires NotResuming(NewClient(session), PrepareServerHello(envS, Greeted(envC, envS, session, spec)))
    ensures var e := Exchange(c, envC, envS, session, spec, free);
            e.Some? && e.value.toServer == []
                && Established(e.value.client, e.value.server, Agreed(Spec(session, spec)))
            && !e.value.client.flags.resumed && !e.value.server.flags.resumed
  {
    hide Setting, Sound, GoodEnv, Greeted, Greeting, HelloData, NewClient, PickSuite, Offer, Agreed, GetCipherSpec,
         Spec, Bare;
    hide PrepareServerHello, Answer, Step, Round, Speaking, Waiting, Usable, PlainWriter, PlainReader, NotResuming,
         EncodeClientHello, Established;
    SettingGives(c, envC, envS, pub);
    HelloDataSize(envC, session, spec);
    var suite := Agreed(Spec(session, spec));
    var g := Greeting(envC, envS, session, spec, suite);
    FullStart(c, envC, envS, session, spec, suite);
    ClientSpeaks(c, envC, session, spec, free);
    ServerHears(c, envC, envS, session, spec, suite, free);
    var c1 := Hash(Speaking(envC, session), HelloData(envC, session, spec));
    var hello := Bare(HANDSHAKE, HelloData(envC, session, spec));
    FullRounds(c, envC, envS, c1, g, hello, pub, suite, free);
  }

  lemma FullRounds(c: Crypto, envC: Env, envS: Env, c1: Sess, g: Sess, hello: Octets, pub: PubKey, suite: Suite,
                   free: nat)
    requires Setting(c, envC, envS, pub) && 0x10200 <= free
    requires Waiting(c1) && c1.sec.transcript == g.sec.transcript && c1.sec.clientRandom == g.sec.clientRandom
    requires Usable(g) && PlainWriter(g) && PlainReader(g) && g.err == ALERT_NONE && g.flags.server && !g.flags.resumed
    requires g.hsState == HS_CLIENT_KEY_EXCHANGE && g.ver == Ver(3, 0, 3, 0) && g.sid.len <= SESSION_ID_SIZE
             && g.cipher == suite
    requires !suite.NullSuite? && NotResuming(c1, PrepareServerHello(envS, g))
    requires Step(c, envS, NewServer(), hello, free) == Answer(c, envS, g, |hello|, free)
    ensures var first := Round(c, envC, envS, Peers(c1, NewServer(), hello), free);
            first.Some? &&
            var e := Round(c, envC, envS, first.value, free);
            e.Some? && e.value.toServer == [] && Established(e.value.client, e.value.server, suite)
            && !e.value.client.flags.resumed && !e.value.server.flags.resumed
  {
    hide Setting, Waiting, Usable, PlainWriter, PlainReader, NotResuming;
    hide Turn, Keyed, KeyData, Premaster, ClosedWriter, ClosingRecords, Established, Bare, Heard, Spoken;
    SettingGives(c, envC, envS, pub);
    var w := PrepareServerHello(envS, g);
    var said := ServerHelloData(w) + CertificateData(envS.certs) + DONE_DATA;
    var s1 := FirstTurn(c, envC, envS, g, hello, pub, free);
    hide Sound, GoodEnv, KeyPair, Presents, ChainFits, PrepareServerHello, Step, Answer, Drain, HelloOut, HandshakeData,
         ServerHelloBody, CertificateBody;
    var r3 := ClientFlight(c, envC, c1, w, envS.certs, pub, free);
    var secret := Premaster(envC, r3);
    var data := KeyData(c, pub, secret);
    var a := Keyed(c, r3.(draws := r3.draws + 1), secret, data);
    var out := Bare(HANDSHAKE, data) + ClosingRecords(c, a);
    TurnAnswers(c, envC, c1, HelloOut(envS.certs, w), ClosedWriter(c, a), out, free);
    RoundIs(c, envC, envS, Peers(c1, NewServer(), hello), s1, HelloOut(envS.certs, w), ClosedWriter(c, a), out, free);
    hide Round;
    KeysAndClose(c, envC, envS, r3, s1, c1, w, pub, said, free);
  }

  lemma FirstTurn(c: Crypto, envC: Env, envS: Env, g: Sess, hello: Octets, pub: PubKey, free: nat) returns (s1: Sess)
    requires Setting(c, envC, envS, pub) && 0x10200 <= free
    requires Usable(g) && PlainWriter(g) && PlainReader(g) && g.err == ALERT_NONE && g.flags.server && !g.flags.resumed
    requires g.hsState == HS_CLIENT_KEY_EXCHANGE && g.ver == Ver(3, 0, 3, 0) && g.sid.len <= SESSION_ID_SIZE
    requires Step(c, envS, NewServer(), hello, free) == Answer(c, envS, g, |hello|, free)
    ensures var w := PrepareServerHello(envS, g);
            && w.sid.len <= SESSION_ID_SIZE && PlainWriter(w) && |w.sec.serverRandom| == RANDOM_SIZE
               && w.cipher == g.cipher
            && Turn(c, envS, NewServer(), hello, free) == Some((s1, HelloOut(envS.certs, w)))
            && Spoken(s1, w, g.sec.clientRandom,
                      g.sec.transcript + (ServerHelloData(w) + CertificateData(envS.certs) + DONE_DATA))
  {
    var certs := envS.certs;
    var w := PrepareServerHello(envS, g);
    PreparedGives(envS, g);
    assert [] !in certs;
    ServerSpeaks(c, envS, g, |hello|, free);
    HelloSentGives(certs, w, g);
    s1 := HelloSent(certs, w);
    assert Usable(NewServer());
    hide Sound, GoodEnv, KeyPair, Presents, ChainFits, PrepareServerHello, Step, Answer, Drain, HelloSent, HelloOut,
         ServerHelloData, CertificateData;
    DrainAnswer(c, envS, NewServer(), hello, s1, HelloOut(certs, w), free);
    TurnAnswers(c, envS, NewServer(), hello, s1, HelloOut(certs, w), free);
  }

  // ---------------------------------------------------------------------------
  // A new id that is the old one
  // ---------------------------------------------------------------------------

  // The server gives its new session the very id the client would have resumed.
  ghost predicate OwnId(session: Option<SessionId>, w: Sess) {
    var own := NewClient(session).sid;
    own.len > 0 && w.sid.len > 0 && w.sid.id == own.id
  }

  lemma PreparedId(env: Env, s: Sess)
    requires s.sid.len == 0 || s.sid.len == SESSION_ID_SIZE
    ensures var n := PrepareServerHello(env, s).sid.len; n == 0 || n == SESSION_ID_SIZE
  {
    hide Repeat;
  }

  // Ids of this server are whole or absent, so only an equal one is taken for the client's own.
  lemma OwnIdExactly(envC: Env, envS: Env, session: Option<SessionId>, spec: nat)
    requires GoodEnv(envC) && Forgotten(envS, session) && KnownSpec(spec)
    ensures var w := PrepareServerHello(envS, Greeted(envC, envS, session, spec));
            && (w.sid.len == 0 || w.sid.len == SESSION_ID_SIZE)
            && (NotResuming(NewClient(session), w) <==> !OwnId(session, w))
  {
    hide Greeted, PrepareServerHello, NewClient, HelloData, PickSuite, Offer, Agreed;
    var g := Greeted(envC, envS, session, spec);
    GreetedAnew(envC, envS, session, spec);
    PreparedId(envS, g);
    NewClientGives(session);
    var own, w := NewClient(session).sid, PrepareServerHello(envS, g);
    assert own.id[..SESSION_ID_SIZE] == own.id && w.sid.id[..SESSION_ID_SIZE] == w.sid.id;
  }

  lemma DrainFails(c: Crypto, env: Env, s: Sess, input: Octets, failed: Sess, free: nat)
    requires Sound(c) && Usable(s) && failed.err != ALERT_NONE
    requires Step(c, env, s, input, free) == Answer(c, env, failed, 0, free)
    ensures Drain(c, env, Conn(s, input, [], false), free).stopped
  {
    hide Step, Answer, Sound;
    AnswerToError(c, env, failed, 0, free);
    DrainOnce(c, env, Conn(s, input, [], false), free);
  }

  // A client that believes itself resumed does not expect a certificate.
  lemma CertificateRefused(c: Crypto, env: Env, r: Sess, certs: seq<Octets>, rest: Octets, free: nat)
    requires Sound(c) && PlainReader(r) && r.hsState == HS_FINISHED && ChainFits(certs) && 0x10000 <= free
    ensures Step(c, env, r, Bare(HANDSHAKE, CertificateData(certs)) + rest, free)
         == Answer(c, env, Fail(r, ILLEGAL_PARAMETER), 0, free)
  {
    CertificateDataSize(certs);
    hide Sound, CertificateBody, FinishedHash, Step, Answer, TotalLength;
    var data := CertificateData(certs);
    PlainPass(c, env, r, HANDSHAKE, data, rest, free);
    assert data[0] == 11;
    assert Arrive(r, 11).None?;
  }

  lemma TakenForOwn(c: Crypto, env: Env, r: Sess, w: Sess, certs: seq<Octets>, free: nat)
    requires Sound(c) && Waiting(r) && r.ver.maj == 3 && r.ver.min == 0 && PlainWriter(w)
             && |w.sec.serverRandom| == RANDOM_SIZE
    requires r.sid == w.sid && r.sid.len == SESSION_ID_SIZE && r.cipher == w.cipher && ChainFits(certs)
             && 0x10000 <= free
    ensures Turn(c, env, r, HelloOut(certs, w), free).None?
  {
    hide Sound, ChainFits, Step, Drain, Answer, ServerHelloData, CertificateData, DONE_DATA, Bare, Resumed;
    var d1, d2, done := Bare(HANDSHAKE, ServerHelloData(w)), Bare(HANDSHAKE, CertificateData(certs)),
        Bare(HANDSHAKE, DONE_DATA);
    var r1 := Resumed(c, r, w);
    ResumedReads(c, r, w);
    BareSize(ServerHelloData(w));
    ClientHearsResumption(c, env, r, w, d2 + done, free);
    DrainOver(c, env, r, d1, d2 + done, r1, free);
    CertificateRefused(c, env, r1, certs, done, free);
    DrainFails(c, env, r1, d2 + done, Fail(r1, ILLEGAL_PARAMETER), free);
    assert HelloOut(certs, w) == d1 + (d2 + done);
  }

  lemma BareSize(data: Octets)
    ensures |Bare(HANDSHAKE, data)| == HEADER + |data|
  {
  }

  lemma ResumedReads(c: Crypto, r: Sess, w: Sess)
    requires Sound(c) && Waiting(r) && r.ver.maj == 3 && r.ver.min == 0 && w.sid.len <= SESSION_ID_SIZE
    ensures var r1 := Resumed(c, r, w); Usable(r1) && PlainReader(r1) && r1.hsState == HS_FINISHED
  {
    var r0 := r.(ver := r.ver.(reqMaj := 3, reqMin := 0), flags := r.flags.(resumed := true),
                 sec := r.sec.(serverRandom := w.sec.serverRandom,
                               transcript := r.sec.transcript + ServerHelloData(w)));
    DeriveKeysGives(c, r0);
    hide Sound, DeriveKeys, Mirrored, HandshakeData;
  }

  lemma AgreedIsOwn(session: Option<SessionId>, spec: nat)
    requires NewClient(session).sid.len > 0
    ensures Agreed(Spec(session, spec)) == NewClient(session).cipher
  {
    NewClientGives(session);
    hide NewClient, Repeat;
  }

  lemma OwnIdFails(c: Crypto, envC: Env, envS: Env, session: Option<SessionId>, spec: nat, pub: PubKey, free: nat)
    requires Setting(c, envC, envS, pub) && KnownSpec(spec) && 0x10200 <= free && Forgotten(envS, session)
    requires OwnId(session, PrepareServerHello(envS, Greeted(envC, envS, session, spec)))
    ensures Exchange(c, envC, envS, session, spec, free).None?
  {
    hide Setting, Sound, GoodEnv, Greeted, HelloData, NewClient, PickSuite, Offer, Agreed, GetCipherSpec, Spec, Bare,
         PrepareServerHello, Answer, Step, Turn, Usable, PlainWriter, PlainReader, EncodeClientHello, HelloOut, Spoken,
             Waiting;
    SettingGives(c, envC, envS, pub);
    HelloDataSize(envC, session, spec);
    var suite := Agreed(Spec(session, spec));
    var g := Greeting(envC, envS, session, spec, suite);
    OwnIdStart(envC, envS, session, spec);
    ClientSpeaks(c, envC, session, spec, free);
    ServerHears(c, envC, envS, session, spec, suite, free);
    var c1 := Hash(Speaking(envC, session), HelloData(envC, session, spec));
    var hello := Bare(HANDSHAKE, HelloData(envC, session, spec));
    var s1 := FirstTurn(c, envC, envS, g, hello, pub, free);
    TakenForOwn(c, envC, c1, PrepareServerHello(envS, g), envS.certs, free);
  }

  lemma OwnIdStart(envC: Env, envS: Env, session: Option<SessionId>, spec: nat)
    requires GoodEnv(envC) && Forgotten(envS, session) && KnownSpec(spec)
    requires OwnId(session, PrepareServerHello(envS, Greeted(envC, envS, session, spec)))
    ensures var suite := Agreed(Spec(session, spec));
            var g := Greeting(envC, envS, session, spec, suite);
            var c1 := Hash(Speaking(envC, session), HelloData(envC, session, spec));
            && Waiting(c1) && c1.ver.maj == 3 && c1.ver.min == 0 && c1.cipher == suite
            && Usable(g) && PlainWriter(g) && PlainReader(g) && g.err == ALERT_NONE && g.flags.server
               && !g.flags.resumed
            && g.hsState == HS_CLIENT_KEY_EXCHANGE && g.ver == Ver(3, 0, 3, 0) && g.sid.len <= SESSION_ID_SIZE
               && g.cipher == suite
            && PrepareServerHello(envS, g).sid == c1.sid && c1.sid.len == SESSION_ID_SIZE
    ensures PickSuite(Greeted(envC, envS, session, spec), Offer(Spec(session, spec)))
            == Some(Agreed(Spec(session, spec)))
  {
    hide HelloData, NewClient, Offer, PickSuite, Agreed, GetCipherSpec, Spec, Greeted, PrepareServerHello, GoodEnv;
    GreetedAnew(envC, envS, session, spec);
    NewClientGives(session);
    HelloDataSize(envC, session, spec);
    OwnIdExactly(envC, envS, session, spec);
    AgreedIsOwn(session, spec);
    PrepareIgnores(envS, Greeted(envC, envS, session, spec), Agreed(Spec(session, spec)), HS_CLIENT_KEY_EXCHANGE);
  }

  // The full exchange: whatever suite the client asks for, and whether or not it first tried to
  // resume a session the server has forgotten, both sides end established exactly if the id of
  // the new session is not the one the client would have resumed.
  lemma FullHandshake(c: Crypto, envC: Env, envS: Env, session: Option<SessionId>, spec: nat, pub: PubKey, free: nat)
    requires Setting(c, envC, envS, pub) && KnownSpec(spec) && 0x10200 <= free && Forgotten(envS, session)
    ensures var e := Exchange(c, envC, envS, session, spec, free);
            var w := PrepareServerHello(envS, Greeted(envC, envS, session, spec));
            && (e.Some? <==> !OwnId(session, w))
            && (e.Some? ==> (
                  && e.value.toServer == [] && Established(e.value.client, e.value.server, Agreed(Spec(session, spec)))
                  && !e.value.client.flags.resumed && !e.value.server.flags.resumed))
  {
    hide *;
    SettingGives(c, envC, envS, pub);
    OwnIdExactly(envC, envS, session, spec);
    if OwnId(session, PrepareServerHello(envS, Greeted(envC, envS, session, spec))) {
      OwnIdFails(c, envC, envS, session, spec, pub, free);
    } else {
      FullSucceeds(c, envC, envS, session, spec, pub, free);
    }
  }

  // It can be: for any server that remembers nothing and has a slot to give out there is a
  // session whose resumption fails so.
  lemma OwnIdHappens(c: Crypto, envC: Env, envS: Env, pub: PubKey, free: nat) returns (session: SessionId)
    requires Setting(c, envC, envS, pub) && envS.register(1).Some? && (forall i, id :: envS.resume(i, id).None?)
             && 0x10200 <= free
    ensures Forgotten(envS, Some(session)) && Exchange(c, envC, envS, Some(session), 0, free).None?
  {
    hide Setting, Exchange, GoodEnv, HelloData;
    SettingGives(c, envC, envS, pub);
    var id := FirstId(envS);
    session := SessionId(id, Repeat(0, MASTER_SIZE), TripleDesSha.Id());
    FirstIdIs(envC, envS, session);
    OwnIdFails(c, envC, envS, Some(session), 0, pub, free);
  }

  lemma FirstId(env: Env) returns (id: IdField)
    requires GoodEnv(env) && env.register(1).Some?
    ensures id == [env.register(1).value, 0, 0, 0] + env.entropy(1, RANDOM_SIZE)[4..]
  {
    id := [env.register(1).value, 0, 0, 0] + env.entropy(1, RANDOM_SIZE)[4..];
  }

  lemma FirstIdIs(envC: Env, env: Env, session: SessionId)
    requires GoodEnv(env) && env.register(1).Some? && (forall i, id :: env.resume(i, id).None?)
    requires session.id == [env.register(1).value, 0, 0, 0] + env.entropy(1, RANDOM_SIZE)[4..]
             && session.cipherId == TripleDesSha.Id()
    ensures OwnId(Some(session), PrepareServerHello(env, Greeted(envC, env, Some(session), 0)))
  {
    hide Repeat, HelloData;
    ResumingClient(session);
  }

  // In particular a client without a session to resume needs nothing of the server's cache.
  lemma FreshHandshake(c: Crypto, envC: Env, envS: Env, spec: nat, pub: PubKey, free: nat)
    requires Setting(c, envC, envS, pub) && KnownSpec(spec) && 0x10200 <= free
    ensures var e := Exchange(c, envC, envS, None, spec, free);
            e.Some? && e.value.toServer == []
            && Established(e.value.client, e.value.server,
                           if spec == 0 then TripleDesSha else GetCipherSpec(spec).value)
  {
    hide Setting, Exchange, Established, GoodEnv, Greeted, PickSuite, Offer, HelloData, PrepareServerHello, Sound;
    SettingGives(c, envC, envS, pub);
    var g := Greeted(envC, envS, None, spec);
    GreetedAnew(envC, envS, None, spec);
    PreparedGives(envS, g);
    FullSucceeds(c, envC, envS, None, spec, pub, free);
  }

  function Fitted(x: Octets, n: nat): (y: Octets)
    ensures |y| == n
  {
    if |x| <= n then x + Repeat(0, n - |x|) else x[..n]
  }

  // The surroundings asked for are possible: ciphers that change nothing and a key that pads.
  lemma SettingIsPossible() returns (c: Crypto, env: Env, pub: PubKey)
    ensures Setting(c, env, env, pub)
  {
    c := Crypto(_ => Repeat(0, 16), _ => Repeat(0, 20), (_, key, _) => key, (_, ctx, x) => (ctx, x),
                (_, ctx, x) => (ctx, x),
                (key: PubKey, x) => Fitted(x, key.size), (_, y: Octets) => if |y| >= 48 then Some(y[..48]) else None);
    pub := PubKey([], 48);
    env := Env([[0]], PrivKey([]), (_, n) => Repeat(0, n), _ => None, (_, _) => None,
               cert => Some((PubKey([], 48), |cert|)), _ => true);
    assert Sound(c) && GoodEnv(env);
    assert TotalLength([[0]]) == 1;
    forall x: Octets | |x| == 48 ensures c.decPriv(env.priv, c.encPub(pub, x)) == Some(x) {
      assert Fitted(x, 48)[..48] == x;
    }
  }

  // ---------------------------------------------------------------------------
  // The resumed exchange
  // ---------------------------------------------------------------------------

  // The server still knows the client's session.
  ghost predicate Remembered(env: Env, session: SessionId) {
    && session.cipherId != 0 && GetCipherSpec(session.cipherId).Some?
    && env.resume(0, session.id) == Some((session.master, GetCipherSpec(session.cipherId).value))
  }

  lemma ResumingClient(session: SessionId)
    requires session.cipherId != 0 && GetCipherSpec(session.cipherId).Some?
    ensures var s := NewClient(Some(session));
            && s.sid == Sid(session.id, SESSION_ID_SIZE) && s.sec.master == session.master
            && s.cipher == GetCipherSpec(session.cipherId).value && !s.cipher.NullSuite?
            && Spec(Some(session), 0) == session.cipherId && KnownSpec(session.cipherId)
  {
    hide Repeat;
  }

  lemma GreetedAgain(envC: Env, envS: Env, session: SessionId, spec: nat)
    requires GoodEnv(envC) && Remembered(envS, session) && KnownSpec(spec)
    ensures var g := Greeted(envC, envS, Some(session), spec);
            && Usable(g) && PlainWriter(g) && PlainReader(g.(hsState := HS_FINISHED)) && g.err == ALERT_NONE
               && g.flags.server && g.flags.resumed
            && g.ver == Ver(3, 0, 3, 0) && g.sid == Sid(session.id, SESSION_ID_SIZE)
            && g.cipher == GetCipherSpec(session.cipherId).value && g.sec.master == session.master
            && g.sec.clientRandom == Speaking(envC, Some(session)).sec.clientRandom
            && g.sec.transcript == HelloData(envC, Some(session), spec)
    ensures PickSuite(Greeted(envC, envS, Some(session), spec), Offer(Spec(Some(session), spec)))
            == Some(GetCipherSpec(session.cipherId).value)
  {
    ResumingClient(session);
    NewClientGives(Some(session));
    HelloDataSize(envC, Some(session), spec);
    var w := Speaking(envC, Some(session));
    var id := w.sid.id[..w.sid.len];
    var s := NewServer().(ver := Ver(3, 0, 3, 0),
                          sec := NewServer().sec.(clientRandom := w.sec.clientRandom,
                                                  transcript := HelloData(envC, Some(session), spec)));
    hide Repeat, HelloData, NewClient, Offer, PickSuite;
    assert id == session.id;
    assert id + s.sid.id[|id|..] == id && id[..|id|] == id;
    OfferPicked(Greeted(envC, envS, Some(session), spec), session.cipherId);
  }

  // The server's flight: its hello, and at once the end of its handshake.
  lemma ServerResumes(c: Crypto, env: Env, g: Sess, used: nat, free: nat)
    requires Sound(c) && GoodEnv(env) && PlainWriter(g) && g.sid.len <= SESSION_ID_SIZE && g.flags.resumed
    requires g.hsState == HS_FINISHED && g.flags.server && g.err == ALERT_NONE && !g.cipher.NullSuite? && free >= 0x1000
    ensures PrepareServerHello(env, g).sid.len <= SESSION_ID_SIZE
    ensures var w := PrepareServerHello(env, g);
            var a := DeriveKeys(c, Hash(w, ServerHelloData(w)));
            Answer(c, env, g, used, free)
            == Return(ClosedWriter(c, a), used, Respond(Bare(HANDSHAKE, ServerHelloData(w)) + ClosingRecords(c, a)))
  {
    PreparedGives(env, g);
    var w := PrepareServerHello(env, g);
    var said := Hash(w, ServerHelloData(w));
    var a := DeriveKeys(c, said);
    DeriveKeysGives(c, said);
    hide Sound, GoodEnv, PrepareServerHello, WriteServerHello, FinalRecords, HandshakeData, ServerHelloBody, DeriveKeys,
         ClosingRecords, ClosedWriter;
    ServerHelloWritten(c, env, g, free);
    var first := Bare(HANDSHAKE, ServerHelloData(w));
    assert |first| <= 0x100;
    hide Bare;
    ClosingWritten(c, a, free - |first|);
    assert ResumeRecords(c, env, g, free) == Wrote(ClosedWriter(c, a), first + ClosingRecords(c, a));
    ResumeSizeBound(g);
    ClosedKeeps(c, a);
    hide ResumeRecords, ResumeFlightSize;
  }

  lemma ResumeSizeBound(s: Sess)
    requires PlainWriter(s)
    ensures ResumeFlightSize(s) <= 0x1000
  {
  }

  lemma ResumedMatch(c: Crypto, g: Sess, w: Sess, r: Sess)
    requires Sound(c) && Usable(g) && PlainWriter(g) && PlainReader(g) && g.err == ALERT_NONE && g.flags.server
             && g.flags.resumed
    requires g.hsState == HS_FINISHED && g.ver == Ver(3, 0, 3, 0) && w.sid.len <= SESSION_ID_SIZE
             && !g.cipher.NullSuite?
    requires w == g.(sec := g.sec.(serverRandom := w.sec.serverRandom), sid := w.sid, draws := g.draws + 1)
    requires Waiting(r) && r.cipher == g.cipher && r.sec.master == g.sec.master
             && r.sec.clientRandom == g.sec.clientRandom
    requires r.sec.transcript == g.sec.transcript
    ensures ReadyToClose(DeriveKeys(c, Hash(w, ServerHelloData(w))), Resumed(c, r, w))
    ensures DeriveKeys(c, Hash(w, ServerHelloData(w))).sec.master == g.sec.master
    ensures DeriveKeys(c, Hash(w, ServerHelloData(w))).flags.resumed && Resumed(c, r, w).flags.resumed
    ensures DeriveKeys(c, Hash(w, ServerHelloData(w))).cipher == g.cipher
  {
    var said := Hash(w, ServerHelloData(w));
    var heard := r.(ver := r.ver.(reqMaj := 3, reqMin := 0), flags := r.flags.(resumed := true),
                    sec := r.sec.(serverRandom := w.sec.serverRandom,
                                  transcript := r.sec.transcript + ServerHelloData(w)));
    DeriveKeysGives(c, said);
    DeriveKeysGives(c, heard);
    DerivedMirror(c, heard, said);
    MirroredSwap(DeriveKeys(c, heard).sec.slices, DeriveKeys(c, said).sec.slices);
    hide Sound, DeriveKeys, Mirrored, ServerHelloData;
  }

  lemma MirroredSwap(a: Slices, b: Slices)
    requires Mirrored(a, b)
    ensures Mirrored(b, a)
  {
  }

  // The first round of a resumed exchange: the server closes first, the client answers.
  lemma ResumedRounds(c: Crypto, envC: Env, envS: Env, c1: Sess, g: Sess, hello: Octets, suite: Suite, free: nat)
    requires Sound(c) && GoodEnv(envS) && 0x10200 <= free
    requires Waiting(c1) && c1.sec.transcript == g.sec.transcript && c1.sec.clientRandom == g.sec.clientRandom
    requires c1.sid == g.sid && c1.sid.len == SESSION_ID_SIZE && c1.cipher == g.cipher && c1.sec.master == g.sec.master
    requires Usable(g) && PlainWriter(g) && PlainReader(g) && g.err == ALERT_NONE && g.flags.server && g.flags.resumed
    requires g.hsState == HS_FINISHED && g.ver == Ver(3, 0, 3, 0) && g.cipher == suite && !suite.NullSuite?
    requires Step(c, envS, NewServer(), hello, free) == Answer(c, envS, g, |hello|, free)
    ensures var first := Round(c, envC, envS, Peers(c1, NewServer(), hello), free);
            first.Some? &&
            var e := Round(c, envC, envS, first.value, free);
            e.Some? && e.value.toServer == [] && Established(e.value.client, e.value.server, suite)
            && e.value.client.flags.resumed && e.value.server.flags.resumed
            && e.value.client.sec.master == g.sec.master
  {
    var w := PrepareServerHello(envS, g);
    PreparedGives(envS, g);
    ServerResumes(c, envS, g, |hello|, free);
    ResumedMatch(c, g, w, c1);
    var a := DeriveKeys(c, Hash(w, ServerHelloData(w)));
    var b := Resumed(c, c1, w);
    var record := Bare(HANDSHAKE, ServerHelloData(w));
    assert Usable(NewServer());
    hide Sound, GoodEnv, PrepareServerHello, Step, Answer, Drain, DeriveKeys, ServerHelloData, Resumed;
    var input := record + ClosingRecords(c, a);
    WritableUsable(c, a);
    DrainAnswer(c, envS, NewServer(), hello, ClosedWriter(c, a), input, free);
    TurnAnswers(c, envS, NewServer(), hello, ClosedWriter(c, a), input, free);
    ClientHearsResumption(c, envC, c1, w, ClosingRecords(c, a), free);
    DrainOver(c, envC, c1, record, ClosingRecords(c, a), b, free);
    ServerCloses(c, envC, envS, a, b, c1, input, free);
    hide Turn, Established, ClosedWriter, ClosingRecords;
  }

  lemma ServerCloses(c: Crypto, envC: Env, envS: Env, a: Sess, b: Sess, r: Sess, input: Octets, free: nat)
    requires Sound(c) && ReadyToClose(a, b) && 0x10000 <= free
    requires Drain(c, envC, Conn(r, input, [], false), free)
             == Drain(c, envC, Conn(b, ClosingRecords(c, a), [], false), free)
    ensures var client := Turn(c, envC, r, input, free);
            client.Some? &&
            var p := Round(c, envC, envS, Peers(client.value.0, ClosedWriter(c, a), client.value.1), free);
            p.Some? && p.value.toServer == [] && Established(p.value.client, p.value.server, a.cipher)
            && p.value.client.flags.resumed == b.flags.resumed && p.value.server.flags.resumed == a.flags.resumed
            && p.value.client.sec.master == a.sec.master
  {
    var b1 := ClosedReader(c, a, b);
    var a1 := ClosedWriter(c, a);
    SecondCloses(c, envC, a, b, free);
    TurnAnswers(c, envC, r, input, ClosedWriter(c, b1), ClosingRecords(c, b1), free);
    FirstEnds(c, envS, a, b, free);
    TurnEnds(c, envS, a1, ClosingRecords(c, b1), ClosedReader(c, b1, a1), free);
    ClosingEstablishes(c, a, b);
    WritableUsable(c, b1);
    EmptyDrain(c, envC, ClosedWriter(c, b1), [], free);
    TurnEnds(c, envC, ClosedWriter(c, b1), [], ClosedWriter(c, b1), free);
    EstablishedSwap(ClosedReader(c, b1, a1), ClosedWriter(c, b1), a.cipher);
    hide Sound, Drain, Turn, Established, ClosingRecords, ClosedHalf, FinishedData;
  }

  lemma EstablishedSwap(a: Sess, b: Sess, suite: Suite)
    requires Established(a, b, suite)
    ensures Established(b, a, suite)
  {
    MirroredSwap(a.sec.slices, b.sec.slices);
    hide Mirrored, Number;
  }

  // The resumed exchange: two flights fewer, no certificate, and the session's master secret.
  lemma ResumedHandshake(c: Crypto, envC: Env, envS: Env, session: SessionId, spec: nat, free: nat)
    requires Sound(c) && GoodEnv(envC) && GoodEnv(envS) && KnownSpec(spec) && Remembered(envS, session)
             && 0x10200 <= free
    ensures var e := Exchange(c, envC, envS, Some(session), spec, free);
            e.Some? && e.value.toServer == []
                && Established(e.value.client, e.value.server, GetCipherSpec(session.cipherId).value)
            && e.value.client.flags.resumed && e.value.server.flags.resumed
            && e.value.client.sec.master == session.master
  {
    var suite := GetCipherSpec(session.cipherId).value;
    var g := Greeting(envC, envS, Some(session), spec, suite);
    GreetedAgain(envC, envS, session, spec);
    ResumingClient(session);
    NewClientGives(Some(session));
    ClientSpeaks(c, envC, Some(session), spec, free);
    ServerHears(c, envC, envS, Some(session), spec, suite, free);
    var c1 := Hash(Speaking(envC, Some(session)), HelloData(envC, Some(session), spec));
    var hello := Bare(HANDSHAKE, HelloData(envC, Some(session), spec));
    hide Sound, GoodEnv, Greeted, HelloData, NewClient, PickSuite, Offer, Spec, Bare, Answer, Step, Round;
    ResumedRounds(c, envC, envS, c1, g, hello, suite, free);
  }
}
