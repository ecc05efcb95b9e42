/** What the transcript of a server session is made of: since the last ClientHello, the slices of
    the records heard and the messages said, in the order they were hashed. A slice is cut by the
    message's own length field, even where its parser uses more or less of the record. */
module SslTranscript {
  import opened Bytes
  import opened SslCrypto
  import opened SslRecord
  import opened SslState
  import opened SslHandshake
  import opened SslFlight
  import opened SslDecode
  import opened SslServer

  datatype Entry = Restart | Heard(slice: Octets) | Said(message: Octets)

  // The transcript after a log of such entries.
  function Since(t: Octets, log: seq<Entry>): Octets
    decreases |log|
  {
    if log == [] then t
    else
      match log[0]
      case Restart => Since([], log[1..])
      case Heard(x) => Since(t + x, log[1..])
      case Said(x) => Since(t + x, log[1..])
  }

  lemma {:induction false} SinceOn(t: Octets, a: seq<Entry>, b: seq<Entry>)
    ensures Since(t, a + b) == Since(Since(t, a), b)
    decreases |a|
  {
    if a == [] {
      assert a + b == b;
    } else {
      assert (a + b)[1..] == a[1..] + b && (a + b)[0] == a[0];
      match a[0]
      case Restart => SinceOn([], a[1..], b);
      case Heard(x) => SinceOn(t + x, a[1..], b);
      case Said(x) => SinceOn(t + x, a[1..], b);
    }
  }

  lemma SinceOne(t: Octets, x: Octets)
    ensures Since(t, []) == t && Since(t, [Heard(x)]) == t + x && Since(t, [Said(x)]) == t + x
    ensures Since(t, [Restart]) == []
  {
    assert [Heard(x)][1..] == [] && [Said(x)][1..] == [] && [Restart][1..] == [];
  }

  // ---------------------------------------------------------------------------
  // Hearing
  // ---------------------------------------------------------------------------

  // The message at the front of b, if it comes in its turn and is all there.
  function Hears(s: Sess, recMaj: byte, b: Octets, whole: Octets): seq<Entry> {
    if b == [] || Arrive(s, b[0]).None? then []
    else (if b[0] == HS_CLIENT_HELLO then [Restart] else []) + Cut(recMaj, b, whole)
  }

  function Cut(recMaj: byte, b: Octets, whole: Octets): seq<Entry> {
    if recMaj == 3 then if |b| < 4 || |b| - 4 < Get3(b[1..]) then [] else [Heard(b[..4 + Get3(b[1..])])]
    else if recMaj == 2 then [Heard(whole)]
    else []
  }

  // The messages that begin in the first i bytes of b.
  function HearsUpTo(c: Crypto, env: Env, s: Sess, recMaj: byte, b: Octets, whole: Octets, i: nat): seq<Entry>
    requires Sound(c) && whole != []
    decreases |b|
  {
    if i == 0 then []
    else
      var p := Message(c, env, s, recMaj, b, whole);
      Hears(s, recMaj, b, whole)
      + (if p.Rejected? || p.used >= |b| then []
         else HearsUpTo(c, env, p.s, recMaj, b[p.used..], whole, if p.used < i then i - p.used else 0))
  }

  lemma CutOn(t: Octets, recMaj: byte, b: Octets, whole: Octets)
    ensures Since(t, Cut(recMaj, b, whole))
         == if recMaj == 3 then if |b| < 4 || |b| - 4 < Get3(b[1..]) then t else t + b[..4 + Get3(b[1..])]
            else if recMaj == 2 then t + whole else t
  {
    SinceOne(t, whole);
    if recMaj == 3 && |b| >= 4 && |b| - 4 >= Get3(b[1..]) {
      SinceOne(t, b[..4 + Get3(b[1..])]);
    }
    hide Since, Get3;
  }

  lemma HearsOn(s: Sess, recMaj: byte, b: Octets, whole: Octets)
    requires b != [] && Arrive(s, b[0]).Some?
    ensures Since(s.sec.transcript, Hears(s, recMaj, b, whole))
         == Since(Arrive(s, b[0]).value.sec.transcript, Cut(recMaj, b, whole))
  {
    hide Since, Cut;
    var t := s.sec.transcript;
    var first := if b[0] == HS_CLIENT_HELLO then [Restart] else [];
    SinceOn(t, first, Cut(recMaj, b, whole));
    SinceOne(t, []);
  }

  // A message leaves the transcript it met, begun anew by a ClientHello, and its own slice.
  lemma HearsIs(c: Crypto, env: Env, s: Sess, recMaj: byte, b: Octets, whole: Octets)
    requires Sound(c) && whole != []
    ensures Message(c, env, s, recMaj, b, whole).s.sec.transcript
         == Since(s.sec.transcript, Hears(s, recMaj, b, whole))
  {
    hide Sound, FinishedHash, Get3, Body, Since, Cut, Arrive;
    SinceOne(s.sec.transcript, []);
    if b != [] && Arrive(s, b[0]).Some? {
      var s1 := Arrive(s, b[0]).value;
      HearsOn(s, recMaj, b, whole);
      CutOn(s1.sec.transcript, recMaj, b, whole);
      hide Hears;
      var expected := FinishedHash(c, s1.sec.transcript, s1.sec.master, !s1.flags.server);
      if recMaj == 3 && |b| >= 4 && |b| - 4 >= Get3(b[1..]) {
        var n := Get3(b[1..]);
        BodyFramed(c, env, Hash(s1, b[..4 + n]), expected, recMaj, n, b[4..]);
      }
      BodyFramed(c, env, Hash(s1, whole), expected, recMaj, |whole| - 1, b[1..]);
    }
  }

  lemma {:induction false} HearsAll(c: Crypto, env: Env, s: Sess, recMaj: byte, b: Octets, whole: Octets)
    requires Sound(c) && whole != [] && b != []
    ensures Messages(c, env, s, recMaj, b, whole).s.sec.transcript
         == Since(s.sec.transcript, HearsUpTo(c, env, s, recMaj, b, whole, |b|))
    decreases |b|
  {
    hide Sound, Message, Since, Hears;
    HearsIs(c, env, s, recMaj, b, whole);
    var p := Message(c, env, s, recMaj, b, whole);
    var t, first := s.sec.transcript, Hears(s, recMaj, b, whole);
    if p.Rejected? || p.used >= |b| {
      assert first + [] == first;
    } else {
      HearsAll(c, env, p.s, recMaj, b[p.used..], whole);
      SinceOn(t, first, HearsUpTo(c, env, p.s, recMaj, b[p.used..], whole, |b| - p.used));
    }
  }

  // So it is of the session any message of a record is met in.
  lemma {:induction false} HearsReached(c: Crypto, env: Env, s: Sess, b: Octets, whole: Octets, i: nat, m: Sess)
    requires Sound(c) && whole != [] && Reaches(c, env, s, b, whole, i, m)
    ensures m.sec.transcript == Since(s.sec.transcript, HearsUpTo(c, env, s, 3, b, whole, i))
    decreases |b|
  {
    hide Sound, Message, Since, Hears;
    var t := s.sec.transcript;
    if i == 0 {
      SinceOne(t, []);
    } else {
      HearsIs(c, env, s, 3, b, whole);
      var p := Message(c, env, s, 3, b, whole);
      HearsReached(c, env, p.s, b[p.used..], whole, i - p.used, m);
      SinceOn(t, Hears(s, 3, b, whole), HearsUpTo(c, env, p.s, 3, b[p.used..], whole, i - p.used));
    }
  }

  // A server's parsers go on behind the slice, except that a ClientHello takes the whole rest of
  // its record, of which only the slice is hashed.
  lemma SliceIsUsed(c: Crypto, env: Env, s: Sess, b: Octets, whole: Octets)
    requires Sound(c) && whole != [] && Core(s) && Message(c, env, s, 3, b, whole).Accepted?
    ensures |b| >= 4 && |b| - 4 >= Get3(b[1..])
    ensures var used := Message(c, env, s, 3, b, whole).used;
            && used == (if b[0] == HS_CLIENT_HELLO then |b| else 4 + Get3(b[1..]))
            && (used == 4 + Get3(b[1..]) <==> b[0] != HS_CLIENT_HELLO || |b| == 4 + Get3(b[1..]))
  {
    hide Sound, FinishedHash, Get3, ClientHelloV3, ClientHelloV2, DeriveKeys, ServerHello, Certificate;
  }

  // ---------------------------------------------------------------------------
  // Saying
  // ---------------------------------------------------------------------------

  function Spoken(w: Written, message: Octets, rest: seq<Entry>): seq<Entry> {
    if w.Wrote? then [Said(message)] + rest else []
  }

  function SpeaksServerHello(env: Env, s: Sess): Octets {
    var s1 := PrepareServerHello(env, s);
    if s1.sid.len > SESSION_ID_SIZE then [] else HandshakeData(2, ServerHelloBody(s1))
  }

  function SpeaksFinished(c: Crypto, s: Sess): Octets {
    HandshakeData(20, FinishedHash(c, s.sec.transcript, s.sec.master, s.flags.server))
  }

  // The messages of each flight, as far as they fit: a ChangeCipherSpec is no message.
  function SaysHello(c: Crypto, env: Env, s: Sess, free: int): seq<Entry>
    requires Sound(c)
  {
    var w1 := WriteServerHello(c, env, s, free);
    var w2 := WriteCertificate(c, env, w1.s, free - |w1.out|);
    var w3 := WriteServerHelloDone(c, w2.s, free - |w1.out + w2.out|);
    Spoken(w1, SpeaksServerHello(env, s),
           Spoken(w2, HandshakeData(11, CertificateBody(env.certs)), Spoken(w3, HandshakeData(14, []), [])))
  }

  function SaysFinal(c: Crypto, s: Sess, free: int): seq<Entry> {
    var w1 := WriteChangeCipherSpec(c, s, free);
    if !w1.Wrote? then []
    else Spoken(WriteFinished(c, w1.s, free - |w1.out|), SpeaksFinished(c, w1.s), [])
  }

  function SaysResume(c: Crypto, env: Env, s: Sess, free: int): seq<Entry>
    requires Sound(c)
  {
    var w1 := WriteServerHello(c, env, s, free);
    Spoken(w1, SpeaksServerHello(env, s), SaysFinal(c, w1.s, free - |w1.out|))
  }

  // A server's answer; an alert is no message.
  function Says(c: Crypto, env: Env, s: Sess, free: int): seq<Entry>
    requires Sound(c)
  {
    if s.err != ALERT_NONE then []
    else if s.hsState == HS_CLIENT_KEY_EXCHANGE then
      if free < HelloFlightSize(env, s) then [] else SaysHello(c, env, s, free)
    else if s.hsState == HS_DONE then
      if free < FinalFlightSize(s) then [] else SaysFinal(c, s, free)
    else if s.hsState == HS_FINISHED then
      if free < ResumeFlightSize(s) then [] else SaysResume(c, env, s, free)
    else []
  }

  lemma RecordSays(c: Crypto, s: Sess, typ: byte, data: Octets, free: int)
    ensures var w := WriteRecord(c, s, typ, data, free);
            w.s.sec.transcript == s.sec.transcript + if w.Wrote? && typ == HANDSHAKE then data else []
  {
    hide Seal, WireSize;
  }

  lemma DerivedSays(c: Crypto, s: Sess)
    requires Sound(c)
    ensures DeriveKeys(c, s).sec.transcript == s.sec.transcript
  {
    hide Sound, DeriveKeys;
    DeriveKeysFramed(c, s);
  }

  lemma ServerHelloSays(c: Crypto, env: Env, s: Sess, free: int)
    requires Sound(c)
    ensures var w := WriteServerHello(c, env, s, free);
            w.s.sec.transcript == s.sec.transcript + if w.Wrote? then SpeaksServerHello(env, s) else []
  {
    hide Sound, WriteRecord, DeriveKeys, ServerHelloBody, HandshakeData;
    var s1 := PrepareServerHello(env, s);
    if s1.sid.len <= SESSION_ID_SIZE {
      var data := HandshakeData(2, ServerHelloBody(s1));
      RecordSays(c, s1, HANDSHAKE, data, free);
      DerivedSays(c, WriteRecord(c, s1, HANDSHAKE, data, free).s);
    }
  }

  lemma CertificateSays(c: Crypto, env: Env, s: Sess, free: int)
    ensures var w := WriteCertificate(c, env, s, free);
            w.s.sec.transcript
            == s.sec.transcript + if w.Wrote? then HandshakeData(11, CertificateBody(env.certs)) else []
  {
    hide WriteRecord, HandshakeData, CertificateBody, WireSize;
    RecordSays(c, s, HANDSHAKE, HandshakeData(11, CertificateBody(env.certs)), free);
  }

  lemma FinishedSays(c: Crypto, s: Sess, free: int)
    ensures var w := WriteFinished(c, s, free);
            w.s.sec.transcript == s.sec.transcript + if w.Wrote? then SpeaksFinished(c, s) else []
  {
    hide WriteRecord, HandshakeData, FinishedHash;
    RecordSays(c, s, HANDSHAKE, SpeaksFinished(c, s), free);
  }

  lemma CipherSpecSays(c: Crypto, s: Sess, free: int)
    ensures WriteChangeCipherSpec(c, s, free).s.sec.transcript == s.sec.transcript
  {
    hide WriteRecord;
    RecordSays(c, s, CHANGE_CIPHER_SPEC, [1], free);
  }

  lemma SpokenOn(t: Octets, w: Written, message: Octets, rest: seq<Entry>)
    ensures Since(t, Spoken(w, message, rest)) == if w.Wrote? then Since(t + message, rest) else t
  {
    if w.Wrote? {
      SinceOn(t, [Said(message)], rest);
    }
    SinceOne(t, message);
    hide Since;
  }

  lemma SaysFinalIs(c: Crypto, s: Sess, free: int)
    ensures FinalRecords(c, s, free).s.sec.transcript == Since(s.sec.transcript, SaysFinal(c, s, free))
  {
    hide WriteChangeCipherSpec, WriteFinished, SpeaksFinished, Since, Spoken;
    var t, w1 := s.sec.transcript, WriteChangeCipherSpec(c, s, free);
    var w2 := WriteFinished(c, w1.s, free - |w1.out|);
    CipherSpecSays(c, s, free);
    FinishedSays(c, w1.s, free - |w1.out|);
    SpokenOn(t, w2, SpeaksFinished(c, w1.s), []);
    SinceOne(t, []);
    SinceOne(t + SpeaksFinished(c, w1.s), []);
  }

  lemma SaysResumeIs(c: Crypto, env: Env, s: Sess, free: int)
    requires Sound(c)
    ensures ResumeRecords(c, env, s, free).s.sec.transcript == Since(s.sec.transcript, SaysResume(c, env, s, free))
  {
    hide Sound, WriteServerHello, SpeaksServerHello, FinalRecords, SaysFinal, Since, Spoken;
    var w1 := WriteServerHello(c, env, s, free);
    ServerHelloSays(c, env, s, free);
    SaysFinalIs(c, w1.s, free - |w1.out|);
    SpokenOn(s.sec.transcript, w1, SpeaksServerHello(env, s), SaysFinal(c, w1.s, free - |w1.out|));
  }

  lemma SaysHelloIs(c: Crypto, env: Env, s: Sess, free: int)
    requires Sound(c)
    ensures HelloRecords(c, env, s, free).s.sec.transcript == Since(s.sec.transcript, SaysHello(c, env, s, free))
  {
    hide Sound, WriteServerHello, SpeaksServerHello, WriteCertificate, WriteRecord, HandshakeData, CertificateBody;
    hide Since, Spoken;
    var t, w1 := s.sec.transcript, WriteServerHello(c, env, s, free);
    var w2 := WriteCertificate(c, env, w1.s, free - |w1.out|);
    var left := free - |w1.out + w2.out|;
    var w3 := WriteServerHelloDone(c, w2.s, left);
    ServerHelloSays(c, env, s, free);
    CertificateSays(c, env, w1.s, free - |w1.out|);
    RecordSays(c, w2.s, HANDSHAKE, HandshakeData(14, []), left);
    var a, b, d := SpeaksServerHello(env, s), HandshakeData(11, CertificateBody(env.certs)), HandshakeData(14, []);
    SpokenOn(t, w1, a, Spoken(w2, b, Spoken(w3, d, [])));
    SpokenOn(t + a, w2, b, Spoken(w3, d, []));
    SpokenOn(t + a + b, w3, d, []);
    SinceOne(t + a + b, d);
    SinceOne(t + a + b + d, []);
  }

  // An answer adds to the transcript exactly the messages it wrote.
  lemma SaysIs(c: Crypto, env: Env, s: Sess, used: nat, free: nat)
    requires Sound(c) && s.flags.server
    ensures Answer(c, env, s, used, free).Return?
    ensures Answer(c, env, s, used, free).s.sec.transcript == Since(s.sec.transcript, Says(c, env, s, free))
  {
    hide Sound, WriteRecord, HelloRecords, FinalRecords, ResumeRecords, KeyRecords, EncodeClientHello;
    hide HelloFlightSize, FinalFlightSize, ResumeFlightSize, KeyFlightSize, Since, SaysHello, SaysFinal, SaysResume;
    SaysHelloIs(c, env, s, free);
    SaysFinalIs(c, s, free);
    SaysResumeIs(c, env, s, free);
    RecordSays(c, s, ALERT, [FATAL, s.err], free);
    SinceOne(s.sec.transcript, []);
    ClientHelloKeeps(c, env, s, s.cipher.Id(), free);
  }

  // ---------------------------------------------------------------------------
  // Passes, calls and runs
  // ---------------------------------------------------------------------------

  function HandshakeLog(c: Crypto, env: Env, s: Sess, recMaj: byte, data: Octets, free: nat): seq<Entry>
    requires Sound(c) && data != []
  {
    var p := Messages(c, env, s, recMaj, data, data);
    HearsUpTo(c, env, s, recMaj, data, data, |data|)
    + (if p.Accepted? && p.respond then Says(c, env, p.s, free) else [])
  }

  // Only handshake records count.
  function PassLog(c: Crypto, env: Env, s: Sess, b: Octets, free: nat): seq<Entry>
    requires Sound(c)
  {
    if b == [] then []
    else
      var o := Open(c, AsReader(s), b, free);
      if o.Plain? && o.rec.typ == HANDSHAKE && o.data != [] then
        HandshakeLog(c, env, s.(de := o.half), o.rec.maj, o.data, free)
      else []
  }

  function LoopLog(c: Crypto, env: Env, s: Sess, b: Octets, free: nat): seq<Entry>
    requires Sound(c)
    decreases |b|
  {
    StepUses(c, env, s, b, free);
    match Step(c, env, s, b, free)
    case Loop(s1, used) => PassLog(c, env, s, b, free) + LoopLog(c, env, s1, b[used..], free)
    case _ => PassLog(c, env, s, b, free)
  }

  function CallLog(c: Crypto, env: Env, s: Sess, call: Call): seq<Entry>
    requires Sound(c)
  {
    match call
    case Receive(input, free) =>
      if s.flags.error || s.flags.closed then []
      else if s.flags.needEncode then Says(c, env, s.(flags := s.flags.(needEncode := false)), free)
      else LoopLog(c, env, s, input, free)
    case AskRehandshake(free) => Spoken(EncodeHelloRequest(c, s, free), HandshakeData(0, []), [])
    case _ => []
  }

  function RunLog(c: Crypto, env: Env, s: Sess, calls: seq<Call>): seq<Entry>
    requires Sound(c)
    decreases |calls|
  {
    if calls == [] then []
    else CallLog(c, env, s, calls[0]) + RunLog(c, env, Apply(c, env, s, calls[0]), calls[1..])
  }

  lemma HandshakeLogIs(c: Crypto, env: Env, s: Sess, recMaj: byte, data: Octets, used: nat, free: nat)
    requires Sound(c) && s.flags.server && data != []
    ensures var p := HandleHandshake(c, env, s, recMaj, data, used, free);
            p.Return? && p.s.sec.transcript == Since(s.sec.transcript, HandshakeLog(c, env, s, recMaj, data, free))
  {
    hide Sound, Messages, HearsUpTo, Answer, Says, Since;
    var t, heard := s.sec.transcript, HearsUpTo(c, env, s, recMaj, data, data, |data|);
    HearsAll(c, env, s, recMaj, data, data);
    MessagesFramed(c, env, s, recMaj, data, data);
    match Messages(c, env, s, recMaj, data, data)
    case Accepted(s1, _, respond) =>
      if respond {
        SaysIs(c, env, s1, used, free);
        SinceOn(t, heard, Says(c, env, s1, free));
      } else {
        assert heard + [] == heard;
      }
    case Rejected(s1) =>
      assert heard + [] == heard;
      AlertSays(c, env, if s1.err == ALERT_NONE then Fail(s1, HANDSHAKE_FAILURE) else s1, 0, free);
  }

  lemma AlertSays(c: Crypto, env: Env, s: Sess, used: nat, free: nat)
    requires Sound(c) && s.flags.server && s.err != ALERT_NONE
    ensures var p := Answer(c, env, s, used, free); p.Return? && p.s.sec.transcript == s.sec.transcript
  {
    hide Sound, Answer, Since;
    SaysIs(c, env, s, used, free);
    SinceOne(s.sec.transcript, []);
  }

  // A record of another kind leaves the transcript as it is, whatever comes of it.
  lemma OtherSays(c: Crypto, env: Env, s: Sess, rec: Rec, data: Octets, used: nat, free: nat)
    requires Sound(c) && s.flags.server && (rec.typ != HANDSHAKE || data == [])
    ensures var p := Handle(c, env, s, rec, data, used, free);
            !p.Wait? && p.s.sec.transcript == s.sec.transcript
  {
    hide Sound, Answer, Messages;
    forall s1: Sess, u: nat | s1.flags.server && s1.err != ALERT_NONE
      ensures Answer(c, env, s1, u, free).Return? && Answer(c, env, s1, u, free).s.sec.transcript == s1.sec.transcript
    {
      AlertSays(c, env, s1, u, free);
    }
  }

  // A pass that goes on has read no message.
  lemma PassLogIs(c: Crypto, env: Env, s: Sess, b: Octets, free: nat)
    requires Sound(c) && s.flags.server
    ensures var p := Step(c, env, s, b, free);
            && (p.Wait? ==> PassLog(c, env, s, b, free) == [])
            && (p.Loop? ==> PassLog(c, env, s, b, free) == [] && p.s.sec.transcript == s.sec.transcript)
            && (p.Return? ==> p.s.sec.transcript == Since(s.sec.transcript, PassLog(c, env, s, b, free)))
  {
    hide Sound, Open, Handle, HandshakeLog, Answer, Since;
    SinceOne(s.sec.transcript, []);
    StepHalf(c, s, b, free);
    if b != [] {
      match Open(c, AsReader(s), b, free)
      case Bad(alert, half, _) => AlertSays(c, env, Fail(s, alert).(de := half), 0, free);
      case Plain(rec, data, half, used) =>
        var s1 := s.(de := half);
        if rec.typ == HANDSHAKE && data != [] {
          HandleIsHandshake(c, env, s1, rec, data, used, free);
          HandshakeLogIs(c, env, s1, rec.maj, data, used, free);
        } else {
          OtherSays(c, env, s1, rec, data, used, free);
        }
      case _ =>
    }
  }

  lemma HandleIsHandshake(c: Crypto, env: Env, s: Sess, rec: Rec, data: Octets, used: nat, free: nat)
    requires Sound(c) && rec.typ == HANDSHAKE
    ensures Handle(c, env, s, rec, data, used, free) == HandleHandshake(c, env, s, rec.maj, data, used, free)
  {
    hide HandleHandshake;
  }

  lemma {:induction false} LoopLogIs(c: Crypto, env: Env, s: Sess, b: Octets, free: nat)
    requires Sound(c) && Reading(s)
    ensures DecodeLoop(c, env, s, b, free).0.sec.transcript
         == Since(s.sec.transcript, LoopLog(c, env, s, b, free))
    decreases |b|
  {
    StepUses(c, env, s, b, free);
    StepOutcome(c, env, s, b, free);
    PassLogIs(c, env, s, b, free);
    hide Step, PassLog, Since, Sound;
    SinceOne(s.sec.transcript, []);
    match Step(c, env, s, b, free)
    case Loop(s1, used) =>
      LoopLogIs(c, env, s1, b[used..], free);
      assert [] + LoopLog(c, env, s1, b[used..], free) == LoopLog(c, env, s1, b[used..], free);
    case _ =>
  }

  lemma CallLogIs(c: Crypto, env: Env, s: Sess, call: Call)
    requires Sound(c) && Inv(s)
    ensures Apply(c, env, s, call).sec.transcript == Since(s.sec.transcript, CallLog(c, env, s, call))
  {
    hide Sound, WriteRecord, DecodeLoop, LoopLog, Answer, Says, Since, Spoken, HandshakeData;
    var t := s.sec.transcript;
    SinceOne(t, []);
    match call
    case Receive(input, free) =>
      if !s.flags.error && !s.flags.closed {
        if s.flags.needEncode {
          SaysIs(c, env, s.(flags := s.flags.(needEncode := false)), 0, free);
        } else {
          LoopLogIs(c, env, s, input, free);
        }
      }
    case Send(payload, free) => RecordSays(c, s, APPLICATION_DATA, payload, free);
    case CloseNotify(free) => RecordSays(c, s, ALERT, [WARNING, CLOSE_NOTIFY], free);
    case AskRehandshake(free) =>
      RecordSays(c, s, HANDSHAKE, HandshakeData(0, []), free);
      SpokenOn(t, EncodeHelloRequest(c, s, free), HandshakeData(0, []), []);
      SinceOne(t + HandshakeData(0, []), []);
  }

  lemma {:induction false} RunLogIs(c: Crypto, env: Env, s: Sess, calls: seq<Call>)
    requires Sound(c) && Inv(s)
    ensures Run(c, env, s, calls).sec.transcript == Since(s.sec.transcript, RunLog(c, env, s, calls))
    decreases |calls|
  {
    hide Sound, Apply, CallLog, Inv, Since;
    SinceOne(s.sec.transcript, []);
    if calls != [] {
      CallLogIs(c, env, s, calls[0]);
      ApplyKeepsInv(c, env, s, calls[0]);
      var s1 := Apply(c, env, s, calls[0]);
      RunLogIs(c, env, s1, calls[1..]);
      SinceOn(s.sec.transcript, CallLog(c, env, s, calls[0]), RunLog(c, env, s1, calls[1..]));
    }
  }

  // In any run the transcript is what was heard and said since the last ClientHello.
  lemma RunTranscript(c: Crypto, env: Env, calls: seq<Call>)
    requires Sound(c)
    ensures Run(c, env, NewServer(), calls).sec.transcript == Since([], RunLog(c, env, NewServer(), calls))
  {
    hide Sound, Since;
    RunLogIs(c, env, NewServer(), calls);
  }

  lemma {:induction false} LoopsKeepTranscript(c: Crypto, env: Env, s: Sess, b: Octets, free: nat, n: nat, r: Sess)
    requires Sound(c) && Reading(s) && LoopsTo(c, env, s, b, free, n, r)
    ensures r.sec.transcript == s.sec.transcript
    decreases |b|
  {
    hide Sound, Step, PassLog, Since, Reading;
    if n != 0 {
      StepOutcome(c, env, s, b, free);
      var p := Step(c, env, s, b, free);
      ServerReads(s);
      PassLogIs(c, env, s, b, free);
      LoopsKeepTranscript(c, env, p.s, b[p.used..], free, n - p.used, r);
    }
  }

  lemma ServerReads(s: Sess)
    requires Reading(s)
    ensures s.flags.server
  {
  }

  lemma EndsReading(c: Crypto, env: Env, s: Sess, input: Octets, free: nat)
    requires Sound(c) && Inv(s) && s.hsState != HS_DONE && Decode(c, env, s, input, free).0.hsState == HS_DONE
    ensures Reading(s)
  {
    hide Sound, DecodeLoop, Answer;
    if s.flags.needEncode {
      AnswerKeepsState(c, env, s.(flags := s.flags.(needEncode := false)), 0, free);
    }
  }

  // In any run a call that ends the handshake reads a Finished that hashes what the whole run
  // has heard and said since the last ClientHello, up to the Finished itself.
  lemma RunEndsOnTranscript(c: Crypto, env: Env, calls: seq<Call>, input: Octets, free: nat)
    returns (n: nat, r: Sess, i: nat, m: Sess)
    requires Sound(c)
    requires var s := Run(c, env, NewServer(), calls);
             s.hsState != HS_DONE && Decode(c, env, s, input, free).0.hsState == HS_DONE
    ensures var s := Run(c, env, NewServer(), calls);
            n <= |input| && LoopsTo(c, env, s, input, free, n, r) && FinishesAt(c, env, r, input[n..], free, i, m)
    ensures var o := Open(c, AsReader(r), input[n..], free);
            o.Plain? && o.data != []
            && m.sec.transcript
               == Since([], RunLog(c, env, NewServer(), calls)
                            + HearsUpTo(c, env, r.(de := o.half), 3, o.data, o.data, i))
  {
    hide Sound, Run, RunLog, Since, Step, Open, LoopsTo, Reaches, ProvesFinished, HearsUpTo, Core, Negotiated;
    n, r, i, m := RunEnds(c, env, calls, input, free);
    var s := Run(c, env, NewServer(), calls);
    RunTranscript(c, env, calls);
    ReachableServer(c, env, calls);
    EndsReading(c, env, s, input, free);
    LoopsKeepTranscript(c, env, s, input, free, n, r);
    var o := Open(c, AsReader(r), input[n..], free);
    HearsReached(c, env, r.(de := o.half), o.data, o.data, i, m);
    SinceOn([], RunLog(c, env, NewServer(), calls), HearsUpTo(c, env, r.(de := o.half), 3, o.data, o.data, i));
  }
}
