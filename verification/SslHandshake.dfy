/** Handshake messages as the decoder parses them: the state machine, the order of messages and
    every field. A message parser gets the bytes after the handshake header up to the end of the
    record, as the source does. */
module SslHandshake {
  import opened Bytes
  import opened SslCrypto
  import opened SslRecord
  import opened SslState

  datatype Parsed =
    | Rejected(s: Sess)                             // s.err says why
    | Accepted(s: Sess, used: nat, respond: bool)   // used counts from the argument's start

  function Reject(s: Sess, alert: byte): Parsed {
    Rejected(Fail(s, alert))
  }

  // ---------------------------------------------------------------------------
  // ClientHello
  // ---------------------------------------------------------------------------

  // Scans a suite list of w-byte entries; yields the entry the scan stopped at and the suite
  // then selected, if any.
  function Entry(list: Octets, w: nat): nat
    requires (w == 2 || w == 3) && |list| >= w
  {
    if w == 2 then Get2(list) else Get3(list)
  }

  function PickNew(list: Octets, w: nat): (r: (Option<Suite>, nat))
    requires (w == 2 || w == 3) && |list| >= w && |list| % w == 0
    decreases |list|
  {
    var id := Entry(list, w);
    var s := GetCipherSpec(id);
    if s.Some? || |list| == w then (s, id) else PickNew(list[w..], w)
  }

  function PickResumed(suite: Suite, list: Octets): (id: nat)
    requires |list| >= 2 && |list| % 2 == 0
    decreases |list|
  {
    var id := Get2(list);
    if suite.Id() == id || |list| == 2 then id else PickResumed(suite, list[2..])
  }

  // The negotiated suite: None leaves the session on the null suite and fails the handshake.
  function PickSuite(s: Sess, list: Octets): Option<Suite>
    requires |list| >= 2 && |list| % 2 == 0
  {
    if s.flags.resumed then
      var id := PickResumed(s.cipher, list);
      if s.cipher.Id() != id || id == 0 then None else Some(s.cipher)
    else
      var (suite, id) := PickNew(list, 2);
      if suite.None? || id == 0 then None else suite
  }

  // Session id field: a known id resumes its master secret and suite; an unknown id is cleared.
  function LookupSession(env: Env, s: Sess, id: Octets): Sess
    requires |id| <= SESSION_ID_SIZE
  {
    if id == [] then s.(flags := s.flags.(resumed := false), sid := s.sid.(len := 0))
    else
      var full := id + s.sid.id[|id|..];
      var found := env.resume(s.draws, full[..|id|]);
      if found.Some? then
        s.(cipher := found.value.1, flags := s.flags.(resumed := true), draws := s.draws + 1,
           sec := s.sec.(master := found.value.0), sid := Sid(full, |id|))
      else
        s.(draws := s.draws + 1, sid := Sid(Repeat(0, SESSION_ID_SIZE), 0))
  }

  function HelloVersion(s: Sess, b: Octets): (p: Parsed)
    ensures p.Accepted? ==> p.used == 2 <= |b|
  {
    if |b| < 2 then Reject(s, ILLEGAL_PARAMETER)
    else
      var s1 := s.(ver := s.ver.(reqMaj := b[0], reqMin := b[1]));
      if b[0] != 3 then Reject(s1, HANDSHAKE_FAILURE)
      else Accepted(s1.(ver := s1.ver.(maj := 3, min := 0)), 2, false)
  }

  // Random, session id: from after the version.
  function HelloSession(env: Env, s: Sess, b: Octets): (p: Parsed)
    ensures p.Accepted? ==> p.used <= |b|
  {
    if |b| < RANDOM_SIZE + 1 then Reject(s, ILLEGAL_PARAMETER)
    else
      var n := b[RANDOM_SIZE];
      var s1 := s.(sec := s.sec.(clientRandom := b[..RANDOM_SIZE]));
      if n > SESSION_ID_SIZE || |b| < RANDOM_SIZE + 1 + n then Reject(s1.(sid := s1.sid.(len := n)), ILLEGAL_PARAMETER)
      else Accepted(LookupSession(env, s1, b[RANDOM_SIZE + 1..RANDOM_SIZE + 1 + n]), RANDOM_SIZE + 1 + n, false)
  }

  // Suite list: from after the session id.
  function HelloSuites(s: Sess, b: Octets): (p: Parsed)
    ensures p.Accepted? ==> p.used <= |b|
  {
    if |b| < 2 then Reject(s, ILLEGAL_PARAMETER)
    else
      var n := Get2(b);
      if n == 0 || n % 2 == 1 || |b| < 2 + n then Reject(s, ILLEGAL_PARAMETER)
      else
        var suite := PickSuite(s, b[2..2 + n]);
        if suite.None? then Reject(s.(cipher := NullSuite), HANDSHAKE_FAILURE)
        else Accepted(s.(cipher := suite.value), 2 + n, false)
  }

  // Compression list and extensions: from after the suites to the end of the record.
  function HelloTail(s: Sess, b: Octets): (p: Parsed)
    ensures p.Accepted? ==> p.used == |b|
  {
    if |b| < 1 || |b| < 1 + b[0] as int then Reject(s, ILLEGAL_PARAMETER)
    else
      var n := 1 + b[0] as int;
      if s.ver.reqMin == 0 && b[0] != 1 then Reject(s, ILLEGAL_PARAMETER)
      else if s.ver.reqMin >= 1 && n < |b| then
        if |b| < n + 2 || |b| != n + 2 + Get2(b[n..]) then Reject(s, ILLEGAL_PARAMETER)
        else Accepted(s, |b|, false)
      else if n != |b| then Reject(s, ILLEGAL_PARAMETER)
      else Accepted(s, n, false)
  }

  function ClientHelloV3(env: Env, s: Sess, b: Octets): Parsed
  {
    var p1 := HelloSession(env, s, b);
    if p1.Rejected? then p1 else
    var p2 := HelloSuites(p1.s, b[p1.used..]);
    if p2.Rejected? then p2 else
    var p3 := HelloTail(p2.s, b[p1.used + p2.used..]);
    if p3.Rejected? then p3 else Accepted(p3.s, |b|, false)
  }

  // The SSLv2 form carries the same information: three lengths, suites, challenge. The session
  // id length is kept in one byte, so only its low byte is looked at.
  function ClientHelloV2(s: Sess, b: Octets): Parsed {
    if |b| < 6 then Reject(s, ILLEGAL_PARAMETER)
    else
      var suites, id, challenge := Get2(b), b[3], Get2(b[4..]);
      if suites == 0 || suites % 3 != 0 then Reject(s, ILLEGAL_PARAMETER)
      else if id != 0 then Reject(s.(sid := s.sid.(len := id)), ILLEGAL_PARAMETER)
      else if challenge < 16 || challenge > 32 || |b| != 6 + suites + challenge then
        Reject(s.(sid := s.sid.(len := 0)), ILLEGAL_PARAMETER)
      else
        var suite := PickNew(b[6..6 + suites], 3).0;
        if suite.None? || suite.value.NullSuite? then
          Reject(s.(cipher := NullSuite, sid := s.sid.(len := 0)), HANDSHAKE_FAILURE)
        else
          Accepted(s.(cipher := suite.value,
                      sec := s.sec.(clientRandom := Repeat(0, RANDOM_SIZE - challenge) + b[6 + suites..]),
                          sid := s.sid.(len := 0)), |b|, false)
  }

  function ClientHello(env: Env, s: Sess, recMaj: byte, b: Octets): Parsed
  {
    var p := HelloVersion(s, b);
    if p.Rejected? then p else
    var q := if recMaj > 2 then ClientHelloV3(env, p.s, b[2..]) else ClientHelloV2(p.s, b[2..]);
    if q.Rejected? then q
    else Accepted(q.s.(hsState := if q.s.flags.resumed then HS_FINISHED else HS_CLIENT_KEY_EXCHANGE), |b|, true)
  }

  // ---------------------------------------------------------------------------
  // The other messages
  // ---------------------------------------------------------------------------

  function ClientKeyExchange(c: Crypto, env: Env, s: Sess, hsLen: nat, b: Octets): Parsed
    requires Sound(c)
  {
    if |b| < hsLen then Reject(s, ILLEGAL_PARAMETER)
    else
      var secret := c.decPriv(env.priv, b[..hsLen]);
      if secret.None? || |secret.value| != PREMASTER_SIZE then Reject(s, ILLEGAL_PARAMETER)
      else
        var pre := secret.value;
        if pre[0] != s.ver.reqMaj then Reject(s, ILLEGAL_PARAMETER)
        else if pre[1] != s.ver.reqMin && (s.ver.reqMin < 1 || pre[1] != s.ver.min) then Reject(s, ILLEGAL_PARAMETER)
        else Accepted(DeriveKeys(c, s.(sec := s.sec.(premaster := pre))).(hsState := HS_FINISHED), hsLen, false)
  }

  function Finished(s: Sess, expected: Octets, hsLen: nat, b: Octets): Parsed {
    if !s.flags.readSecure then Reject(s, UNEXPECTED_MESSAGE)
    else if hsLen != FINISHED_SIZE || |b| < hsLen || b[..hsLen] != expected then Reject(s, ILLEGAL_PARAMETER)
    else Accepted(s.(hsState := HS_DONE, sec := s.sec.(cert := None)), hsLen, s.flags.server != s.flags.resumed)
  }

  function HelloRequest(s: Sess, b: Octets): Parsed {
    if b != [] then Reject(s, ILLEGAL_PARAMETER) else Accepted(s, 0, true)
  }

  // The server's answer about the session id decides whether the client resumes.
  function AdoptSession(s: Sess, id: Octets): Sess
    requires |id| <= SESSION_ID_SIZE
  {
    if id == [] then
      if s.sid.len > 0 then
        s.(cipher := NullSuite, flags := s.flags.(resumed := false), sec := s.sec.(master := Repeat(0, MASTER_SIZE)),
           sid := Sid(Repeat(0, SESSION_ID_SIZE), 0))
      else s
    else if s.sid.len == 0 then
      s.(sid := Sid(id + s.sid.id[|id|..], |id|))
    else if s.sid.id[..|id|] == id then
      s.(flags := s.flags.(resumed := true))
    else
      s.(cipher := NullSuite, flags := s.flags.(resumed := false), sec := s.sec.(master := Repeat(0, MASTER_SIZE)),
         sid := Sid(id + s.sid.id[|id|..], |id|))
  }

  function ServerHello(c: Crypto, s: Sess, b: Octets): Parsed
    requires Sound(c)
  {
    if |b| < 2 then Reject(s, ILLEGAL_PARAMETER)
    else
      var s1 := s.(ver := s.ver.(reqMaj := b[0], reqMin := b[1]));
      if b[0] != s.ver.maj then Reject(s1, HANDSHAKE_FAILURE)
      else if |b| < 2 + RANDOM_SIZE + 1 then Reject(s1, ILLEGAL_PARAMETER)
      else
        var n := b[2 + RANDOM_SIZE] as int;
        var s2 := s1.(sec := s1.sec.(serverRandom := b[2..2 + RANDOM_SIZE]));
        var at := 2 + RANDOM_SIZE + 1 + n;
        if n > SESSION_ID_SIZE || |b| < at then Reject(s2, ILLEGAL_PARAMETER)
        else ServerHelloSuite(c, AdoptSession(s2, b[2 + RANDOM_SIZE + 1..at]), b[at..], at)
  }

  // Suite and compression: from after the session id; at counts what came before.
  function ServerHelloSuite(c: Crypto, s: Sess, b: Octets, at: nat): Parsed
    requires Sound(c)
  {
    if |b| < 2 then Reject(s, ILLEGAL_PARAMETER)
    else
      var suite := GetCipherSpec(Get2(b));
      if s.flags.resumed && s.cipher.Id() != Get2(b) then Reject(s, HANDSHAKE_FAILURE)
      else if !s.flags.resumed && suite.None? then Reject(s, HANDSHAKE_FAILURE)
      else
        var s1 := if s.flags.resumed then s else s.(cipher := suite.value);
        if |b| < 3 || b[2] != 0 then Reject(s1, ILLEGAL_PARAMETER)
        else if s1.flags.resumed then Accepted(DeriveKeys(c, s1).(hsState := HS_FINISHED), at + 3, false)
        else Accepted(s1.(hsState := HS_CERTIFICATE), at + 3, false)
  }

  // The chain as it is walked: the certificates met, their keys, and the bytes used.
  datatype Walk = Broken(alert: byte) | Walk(certs: seq<Octets>, keys: seq<PubKey>, used: nat)

  function WalkChain(env: Env, left: int, b: Octets): Walk
    decreases |b|
  {
    if left <= 0 then Walk([], [], 0)
    else if |b| < 3 || |b| - 3 < Get3(b) then Broken(ILLEGAL_PARAMETER)
    else
      var n := Get3(b);
      var parsed := env.parseCert(b[3..3 + n]);
      if parsed.None? || parsed.value.1 > |b| - 3 then Broken(BAD_CERTIFICATE)
      else
        var next := 3 + parsed.value.1;
        var rest := WalkChain(env, left - (n + 3), b[next..]);
        if rest.Broken? then rest
        else Walk([b[3..3 + n]] + rest.certs, [parsed.value.0] + rest.keys, next + rest.used)
  }

  function Certificate(env: Env, s: Sess, b: Octets): Parsed {
    if |b| < 3 then Reject(s, ILLEGAL_PARAMETER)
    else if Get3(b) == 0 then Reject(s, NO_CERTIFICATE)
    else if |b| < 6 then Reject(s, ILLEGAL_PARAMETER)
    else
      var chain := WalkChain(env, Get3(b), b[3..]);
      if chain.Broken? then Reject(s, chain.alert)
      else if chain.keys == [] || !env.acceptChain(chain.certs) then Reject(s, BAD_CERTIFICATE)
      else Accepted(s.(hsState := HS_SERVER_HELLO_DONE, sec := s.sec.(cert := Some(chain.keys[0]))), 3 + chain.used,
                    false)
  }

  function ServerHelloDone(s: Sess, hsLen: nat): Parsed {
    if hsLen != 0 then Reject(s, BAD_CERTIFICATE) else Accepted(s.(hsState := HS_FINISHED), 0, true)
  }

  // ---------------------------------------------------------------------------
  // One message, and all messages of a record
  // ---------------------------------------------------------------------------

  // The order check. A ClientHello is also welcome after the handshake, and a HelloRequest is
  // welcome at a client then; a ClientHello restarts the transcript.
  function Arrive(s: Sess, hsType: byte): Option<Sess> {
    var restart := s.hsState == HS_DONE
        && (hsType == HS_CLIENT_HELLO || (hsType == HS_HELLO_REQUEST && !s.flags.server));
    if hsType != s.hsState && !restart then None
    else
      var s1 := if restart then s.(hsState := hsType) else s;
      Some(if hsType == HS_CLIENT_HELLO then s1.(sec := s1.sec.(transcript := [])) else s1)
  }

  function Body(c: Crypto, env: Env, s: Sess, expected: Octets, recMaj: byte, hsLen: nat, b: Octets): Parsed
    requires Sound(c)
  {
    if s.hsState == HS_CLIENT_HELLO then ClientHello(env, s, recMaj, b)
    else if s.hsState == HS_CLIENT_KEY_EXCHANGE then ClientKeyExchange(c, env, s, hsLen, b)
    else if s.hsState == HS_FINISHED then Finished(s, expected, hsLen, b)
    else if s.hsState == HS_HELLO_REQUEST then HelloRequest(s, b)
    else if s.hsState == HS_SERVER_HELLO then ServerHello(c, s, b)
    else if s.hsState == HS_CERTIFICATE then Certificate(env, s, b)
    else if s.hsState == HS_SERVER_HELLO_DONE then ServerHelloDone(s, hsLen)
    else Reject(s, UNEXPECTED_MESSAGE)
  }

  // One message at the front of b; whole is the record's whole data, which is what an SSLv2
  // message hashes.
  function Message(c: Crypto, env: Env, s: Sess, recMaj: byte, b: Octets, whole: Octets): (p: Parsed)
    requires Sound(c) && whole != []
    ensures p.Accepted? ==> 0 < p.used
  {
    if b == [] then Reject(s, ILLEGAL_PARAMETER)
    else
      var arrived := Arrive(s, b[0]);
      if arrived.None? then Reject(s, ILLEGAL_PARAMETER)
      else
        var s1 := arrived.value;
        var expected := FinishedHash(c, s1.sec.transcript, s1.sec.master, !s1.flags.server);
        if recMaj == 3 then
          if |b| < 4 || |b| - 4 < Get3(b[1..]) then Reject(s1, ILLEGAL_PARAMETER)
          else
            var n := Get3(b[1..]);
            Shift(Body(c, env, Hash(s1, b[..4 + n]), expected, recMaj, n, b[4..]), 4)
        else if recMaj == 2 then
          Shift(Body(c, env, Hash(s1, whole), expected, recMaj, |whole| - 1, b[1..]), 1)
        else Reject(s1, ILLEGAL_PARAMETER)
  }

  function Shift(p: Parsed, n: nat): Parsed {
    if p.Rejected? then p else p.(used := p.used + n)
  }

  // All messages of a record; one answer is due when any of them asks for it.
  function Messages(c: Crypto, env: Env, s: Sess, recMaj: byte, b: Octets, whole: Octets): (p: Parsed)
    requires Sound(c) && whole != []
    decreases |b|
  {
    var p := Message(c, env, s, recMaj, b, whole);
    if p.Rejected? || p.used >= |b| then p
    else
      var q := Messages(c, env, p.s, recMaj, b[p.used..], whole);
      if q.Rejected? then q else Accepted(q.s, p.used + q.used, p.respond || q.respond)
  }

  // ---------------------------------------------------------------------------
  // What parsing leaves alone
  // ---------------------------------------------------------------------------

  // Live protection and the session's fate are not the parser's business; of the flags only
  // resumption changes.
  ghost predicate Spared(s: Sess, t: Sess) {
    && t.flags.server == s.flags.server
    && t.flags.readSecure == s.flags.readSecure && t.flags.writeSecure == s.flags.writeSecure
    && t.flags.closed == s.flags.closed && t.flags.needEncode == s.flags.needEncode && t.flags.error == s.flags.error
    && t.en == s.en && t.de == s.de && t.ignored == s.ignored
  }

  // Nor does a message's own parser touch the transcript.
  ghost predicate Framed(s: Sess, t: Sess) {
    Spared(s, t) && t.sec.transcript == s.sec.transcript
  }

  lemma HelloVersionFramed(s: Sess, b: Octets)
    ensures Framed(s, HelloVersion(s, b).s)
  {
  }

  lemma LookupSessionFramed(env: Env, s: Sess, id: Octets)
    requires |id| <= SESSION_ID_SIZE
    ensures Framed(s, LookupSession(env, s, id))
  {
    hide Repeat;
  }

  lemma HelloSessionFramed(env: Env, s: Sess, b: Octets)
    ensures Framed(s, HelloSession(env, s, b).s)
  {
    hide LookupSession;
    if |b| >= 33 && b[32] as int <= SESSION_ID_SIZE && |b| >= 33 + b[32] as int {
      LookupSessionFramed(env, s.(sec := s.sec.(clientRandom := b[..32])), b[33..33 + b[32] as int]);
    }
  }

  lemma HelloSuitesFramed(s: Sess, b: Octets)
    ensures Framed(s, HelloSuites(s, b).s)
  {
    hide PickSuite, Get2;
  }

  lemma HelloTailFramed(s: Sess, b: Octets)
    ensures Framed(s, HelloTail(s, b).s)
  {
    hide Get2;
  }

  lemma ClientHelloV2Framed(s: Sess, b: Octets)
    ensures Framed(s, ClientHelloV2(s, b).s)
  {
    hide PickNew, Get2;
  }

  lemma ClientHelloV3Framed(env: Env, s: Sess, b: Octets)
    ensures Framed(s, ClientHelloV3(env, s, b).s)
  {
    hide HelloSession, HelloSuites, HelloTail;
    var p1 := HelloSession(env, s, b);
    HelloSessionFramed(env, s, b);
    if p1.Accepted? {
      var p2 := HelloSuites(p1.s, b[p1.used..]);
      HelloSuitesFramed(p1.s, b[p1.used..]);
      if p2.Accepted? {
        HelloTailFramed(p2.s, b[p1.used + p2.used..]);
      }
    }
  }

  lemma ClientHelloFramed(env: Env, s: Sess, recMaj: byte, b: Octets)
    ensures Framed(s, ClientHello(env, s, recMaj, b).s)
  {
    hide HelloVersion, ClientHelloV3, ClientHelloV2;
    HelloVersionFramed(s, b);
    var p := HelloVersion(s, b);
    if p.Accepted? {
      ClientHelloV3Framed(env, p.s, b[2..]);
      ClientHelloV2Framed(p.s, b[2..]);
    }
  }

  lemma DeriveKeysFramed(c: Crypto, s: Sess)
    requires Sound(c)
    ensures Framed(s, DeriveKeys(c, s))
  {
    hide Sound, KeyBlock, Slice, MasterSecret;
  }

  lemma ServerHelloSuiteFramed(c: Crypto, s: Sess, b: Octets, at: nat)
    requires Sound(c)
    ensures Framed(s, ServerHelloSuite(c, s, b, at).s)
  {
    hide Sound, DeriveKeys, GetCipherSpec, Get2;
    forall s1: Sess ensures Framed(s1, DeriveKeys(c, s1)) { DeriveKeysFramed(c, s1); }
  }

  lemma AdoptSessionFramed(s: Sess, id: Octets)
    requires |id| <= SESSION_ID_SIZE
    ensures Framed(s, AdoptSession(s, id))
  {
    hide Repeat;
  }

  lemma ServerHelloFramed(c: Crypto, s: Sess, b: Octets)
    requires Sound(c)
    ensures Framed(s, ServerHello(c, s, b).s)
  {
    hide Sound, ServerHelloSuite, AdoptSession;
    if |b| >= 35 && b[34] as int <= SESSION_ID_SIZE && |b| >= 35 + b[34] as int {
      var at := 35 + b[34] as int;
      var s1 := s.(sec := s.sec.(serverRandom := b[2..34]), ver := s.ver.(reqMaj := b[0], reqMin := b[1]));
      AdoptSessionFramed(s1, b[35..at]);
      ServerHelloSuiteFramed(c, AdoptSession(s1, b[35..at]), b[at..], at);
    }
  }

  lemma OthersFramed(c: Crypto, env: Env, s: Sess, expected: Octets, hsLen: nat, b: Octets)
    requires Sound(c)
    ensures Framed(s, ClientKeyExchange(c, env, s, hsLen, b).s)
    ensures Framed(s, Finished(s, expected, hsLen, b).s)
    ensures Framed(s, Certificate(env, s, b).s)
  {
    hide Sound, DeriveKeys, WalkChain, Get3;
    forall s1: Sess ensures Framed(s1, DeriveKeys(c, s1)) { DeriveKeysFramed(c, s1); }
  }

  lemma BodyFramed(c: Crypto, env: Env, s: Sess, expected: Octets, recMaj: byte, hsLen: nat, b: Octets)
    requires Sound(c)
    ensures Framed(s, Body(c, env, s, expected, recMaj, hsLen, b).s)
  {
    hide Sound, ClientHello, ServerHello, ClientKeyExchange, Finished, Certificate;
    ClientHelloFramed(env, s, recMaj, b);
    ServerHelloFramed(c, s, b);
    OthersFramed(c, env, s, expected, hsLen, b);
  }

  lemma MessageFramed(c: Crypto, env: Env, s: Sess, recMaj: byte, b: Octets, whole: Octets)
    requires Sound(c) && whole != []
    ensures Spared(s, Message(c, env, s, recMaj, b, whole).s)
  {
    hide Sound, FinishedHash, Get3, Body;
    if b != [] {
      var arrived := Arrive(s, b[0]);
      if arrived.Some? {
        var s1 := arrived.value;
        var expected := FinishedHash(c, s1.sec.transcript, s1.sec.master, !s1.flags.server);
        if recMaj == 3 && |b| >= 4 && |b| - 4 >= Get3(b[1..]) {
          var n := Get3(b[1..]);
          BodyFramed(c, env, Hash(s1, b[..4 + n]), expected, recMaj, n, b[4..]);
        }
        BodyFramed(c, env, Hash(s1, whole), expected, recMaj, |whole| - 1, b[1..]);
      }
    }
  }

  lemma {:induction false} MessagesFramed(c: Crypto, env: Env, s: Sess, recMaj: byte, b: Octets, whole: Octets)
    requires Sound(c) && whole != []
    ensures Spared(s, Messages(c, env, s, recMaj, b, whole).s)
    decreases |b|
  {
    hide Message;
    MessageFramed(c, env, s, recMaj, b, whole);
    var p := Message(c, env, s, recMaj, b, whole);
    if p.Accepted? && p.used < |b| {
      MessagesFramed(c, env, p.s, recMaj, b[p.used..], whole);
    }
  }
}
