/** The state of one SSL session and the world around it. */
module SslState {
  import opened Bytes
  import opened SslCrypto
  import opened SslRecord

  const HS_HELLO_REQUEST := 0
  const HS_CLIENT_HELLO := 1
  const HS_SERVER_HELLO := 2
  const HS_CERTIFICATE := 11
  const HS_SERVER_HELLO_DONE := 14
  const HS_CLIENT_KEY_EXCHANGE := 16
  const HS_FINISHED := 20
  const HS_DONE := 255

  const RANDOM_SIZE := 32
  const PREMASTER_SIZE := 48
  const MASTER_SIZE := 48
  const SESSION_ID_SIZE := 32
  const FINISHED_SIZE := 36
  const MAX_IGNORED := 1024

  // The 32-byte session id field; sessionIdLen of its bytes are significant.
  type IdField = b: Octets | |b| == SESSION_ID_SIZE witness Repeat(0, SESSION_ID_SIZE)

  datatype Flags = Flags(
    server: bool, readSecure: bool, writeSecure: bool, resumed: bool,
    closed: bool, needEncode: bool, error: bool)

  // Negotiated and requested protocol versions, the session id, and the security parameters.
  datatype Ver = Ver(maj: byte, min: byte, reqMaj: byte, reqMin: byte)

  datatype Sid = Sid(id: IdField, len: nat)

  datatype Sec = Sec(
    clientRandom: Octets, serverRandom: Octets, premaster: Octets, master: Octets,
    slices: Slices, transcript: Octets, cert: Option<PubKey>)

  // hsState is the type of the next expected handshake message, or HS_DONE.
  datatype Sess = Sess(
    flags: Flags, hsState: int, err: byte, ignored: nat, ver: Ver, sid: Sid,
    cipher: Suite, en: Half, de: Half, sec: Sec, draws: nat)

  // What the session asks of its surroundings: the local chain and key, the entropy of each
  // draw, the session cache's answers at each draw, and certificate parsing and acceptance.
  datatype Env = Env(
    certs: seq<Octets>, priv: PrivKey,
    entropy: (nat, nat) -> Octets,
    register: nat -> Option<byte>,
    resume: (nat, Octets) -> Option<(Octets, Suite)>,
    parseCert: Octets -> Option<(PubKey, nat)>,
    acceptChain: seq<Octets> -> bool)

  ghost predicate GoodEnv(env: Env) {
    && (forall i, n :: |env.entropy(i, n)| == n)
    && (forall i, id :: env.resume(i, id).Some? ==> |env.resume(i, id).value.0| == MASTER_SIZE)
    && env.certs != []
  }

  const NO_SLICES := Slices([], [], [], [], [], [])

  function NewSession(server: bool, hsState: int, ver: Ver): Sess {
    Sess(Flags(server, false, false, false, false, false, false), hsState, ALERT_NONE, 0, ver,
         Sid(Repeat(0, SESSION_ID_SIZE), 0), NullSuite, PLAIN, PLAIN,
         Sec(Repeat(0, RANDOM_SIZE), Repeat(0, RANDOM_SIZE), [], Repeat(0, MASTER_SIZE), NO_SLICES, [], None), 0)
  }

  function NewServer(): Sess {
    NewSession(true, HS_CLIENT_HELLO, Ver(0, 0, 0, 0))
  }

  // A session to resume: its id, master secret and suite.
  datatype SessionId = SessionId(id: IdField, master: Octets, cipherId: nat)

  function NewClient(session: Option<SessionId>): Sess {
    var s := NewSession(false, HS_SERVER_HELLO, Ver(3, 0, 0, 0));
    if session.Some? && session.value.cipherId != 0 && GetCipherSpec(session.value.cipherId).Some? then
      s.(cipher := GetCipherSpec(session.value.cipherId).value, sec := s.sec.(master := session.value.master),
         sid := Sid(session.value.id, SESSION_ID_SIZE))
    else s
  }

  function AsReader(s: Sess): Reader {
    Reader(s.de, s.flags.readSecure, s.ver.maj, s.ver.min, s.hsState != HS_SERVER_HELLO && s.hsState != HS_CLIENT_HELLO)
  }

  function Fail(s: Sess, alert: byte): Sess {
    s.(err := alert)
  }

  function Hash(s: Sess, b: Octets): Sess {
    s.(sec := s.sec.(transcript := s.sec.transcript + b))
  }

  // Derives master secret (unless resumed) and key block, and slices the block.
  function DeriveKeys(c: Crypto, s: Sess): Sess
    requires Sound(c)
  {
    var s1 := if s.flags.resumed then s
              else s.(sec := s.sec.(master := MasterSecret(c, s.sec.premaster, s.sec.clientRandom, s.sec.serverRandom),
                                    premaster := []));
    var block := KeyBlock(c, s1.cipher, s1.sec.master, s1.sec.clientRandom, s1.sec.serverRandom);
    ExpandLength(c, s1.sec.master, s1.sec.serverRandom, s1.sec.clientRandom, KeyRounds(s1.cipher));
    s1.(sec := s1.sec.(slices := Slice(s1.cipher, block, s1.flags.server)))
  }

  function ActivateRead(c: Crypto, s: Sess): Sess {
    s.(de := Activate(c, s.cipher, s.sec.slices.rMac, s.sec.slices.rKey, s.sec.slices.rIv),
       flags := if s.cipher.NullSuite? then s.flags else s.flags.(readSecure := true))
  }

  function ActivateWrite(c: Crypto, s: Sess): Sess {
    s.(en := Activate(c, s.cipher, s.sec.slices.wMac, s.sec.slices.wKey, s.sec.slices.wIv),
       flags := if s.cipher.NullSuite? then s.flags else s.flags.(writeSecure := true))
  }
}
