/** What holds of a server session after any run of calls, whatever the peer sends. */
module SslServer {
  import opened Bytes
  import opened SslCrypto
  import opened SslRecord
  import opened SslState
  import opened SslHandshake
  import opened SslFlight
  import opened SslDecode

  // ---------------------------------------------------------------------------
  // The invariant
  // ---------------------------------------------------------------------------

  ghost predicate Core(s: Sess) {
    && s.flags.server
    && (s.hsState == HS_CLIENT_HELLO || s.hsState == HS_CLIENT_KEY_EXCHANGE || s.hsState == HS_FINISHED
        || s.hsState == HS_DONE)
    && (s.hsState == HS_DONE ==> s.flags.readSecure)
    && s.flags.readSecure == !s.de.suite.NullSuite?
    && s.flags.writeSecure == !s.en.suite.NullSuite?
  }

  ghost predicate Negotiated(s: Sess) {
    s.hsState != HS_CLIENT_HELLO ==> !s.cipher.NullSuite? && s.ver.maj == 3
  }

  // Without a recorded error the suite is a real one from the ClientHello on; with one, the
  // session is dead or owes its alert.
  ghost predicate Inv(s: Sess) {
    && Core(s)
    && (s.err == ALERT_NONE ==> Negotiated(s) && s.sid.len <= SESSION_ID_SIZE)
    && (s.err != ALERT_NONE ==> s.flags.error || s.flags.needEncode)
  }

  // Inside a call, while records are being read.
  ghost predicate Reading(s: Sess) {
    Core(s) && s.err == ALERT_NONE && Negotiated(s) && s.sid.len <= SESSION_ID_SIZE
  }

  // What a parsed message leaves: an error recorded, or a session that reads on.
  ghost predicate Parsing(p: Parsed) {
    && Core(p.s)
    && (p.Accepted? ==> Reading(p.s))
    && (p.Rejected? ==> p.s.err != ALERT_NONE)
  }

  // ---------------------------------------------------------------------------
  // Parsing
  // ---------------------------------------------------------------------------

  lemma PickNewIsReal(list: Octets, w: nat)
    requires (w == 2 || w == 3) && |list| >= w && |list| % w == 0
    ensures var (suite, id) := PickNew(list, w); suite.Some? && id != 0 ==> !suite.value.NullSuite?
    decreases |list|
  {
    if GetCipherSpec(Entry(list, w)).None? && |list| > w {
      PickNewIsReal(list[w..], w);
    }
  }

  lemma PickSuiteIsReal(s: Sess, list: Octets)
    requires |list| >= 2 && |list| % 2 == 0
    ensures PickSuite(s, list).Some? ==> !PickSuite(s, list).value.NullSuite?
  {
    PickNewIsReal(list, 2);
    hide PickNew, PickResumed;
  }

  lemma LookupSessionSize(env: Env, s: Sess, id: Octets)
    requires |id| <= SESSION_ID_SIZE
    ensures var t := LookupSession(env, s, id);
            t.sid.len <= SESSION_ID_SIZE && t.err == s.err && t.hsState == s.hsState && t.ver == s.ver
  {
    hide Repeat;
  }

  lemma HelloV3Outcome(env: Env, s: Sess, b: Octets)
    requires s.err == ALERT_NONE
    ensures var p := ClientHelloV3(env, s, b);
            p.s.hsState == s.hsState && p.s.ver == s.ver
            && if p.Accepted? then p.s.err == ALERT_NONE && !p.s.cipher.NullSuite? && p.s.sid.len <= SESSION_ID_SIZE
               else p.s.err != ALERT_NONE
  {
    hide PickSuite, LookupSession, Get2;
    if |b| >= 33 && b[32] as int <= SESSION_ID_SIZE && |b| >= 33 + b[32] as int {
      LookupSessionSize(env, s.(sec := s.sec.(clientRandom := b[..32])), b[33..33 + b[32] as int]);
    }
    forall s1: Sess, list: Octets | |list| >= 2 && |list| % 2 == 0
      ensures PickSuite(s1, list).Some? ==> !PickSuite(s1, list).value.NullSuite?
    {
      PickSuiteIsReal(s1, list);
    }
  }

  lemma HelloV2Outcome(s: Sess, b: Octets)
    requires s.err == ALERT_NONE
    ensures var p := ClientHelloV2(s, b);
            p.s.hsState == s.hsState && p.s.ver == s.ver
            && if p.Accepted? then p.s.err == ALERT_NONE && !p.s.cipher.NullSuite? && p.s.sid.len <= SESSION_ID_SIZE
               else p.s.err != ALERT_NONE
  {
    hide PickNew, Get2;
  }

  lemma ClientHelloOutcome(env: Env, s: Sess, recMaj: byte, b: Octets)
    requires Core(s) && s.err == ALERT_NONE && s.hsState == HS_CLIENT_HELLO
    ensures Parsing(ClientHello(env, s, recMaj, b))
  {
    ClientHelloFramed(env, s, recMaj, b);
    var p := HelloVersion(s, b);
    if p.Accepted? {
      HelloV3Outcome(env, p.s, b[2..]);
      HelloV2Outcome(p.s, b[2..]);
    }
    hide ClientHelloV3, ClientHelloV2;
  }

  lemma DerivedOutcome(c: Crypto, s: Sess)
    requires Sound(c)
    ensures var t := DeriveKeys(c, s);
            t.err == s.err && t.hsState == s.hsState && t.cipher == s.cipher && t.sid == s.sid && t.flags == s.flags
            && t.en == s.en && t.de == s.de && t.ver == s.ver
  {
    hide Sound, KeyBlock, Slice, MasterSecret;
  }

  lemma KeyExchangeOutcome(c: Crypto, env: Env, s: Sess, hsLen: nat, b: Octets)
    requires Sound(c) && Reading(s) && s.hsState == HS_CLIENT_KEY_EXCHANGE
    ensures Parsing(ClientKeyExchange(c, env, s, hsLen, b))
  {
    hide Sound, DeriveKeys;
    forall s1: Sess
      ensures var t := DeriveKeys(c, s1);
              t.err == s1.err && t.hsState == s1.hsState && t.cipher == s1.cipher && t.sid == s1.sid
                  && t.flags == s1.flags
              && t.en == s1.en && t.de == s1.de && t.ver == s1.ver
    {
      DerivedOutcome(c, s1);
    }
  }

  lemma MessageOutcome(c: Crypto, env: Env, s: Sess, recMaj: byte, b: Octets, whole: Octets)
    requires Sound(c) && whole != [] && Reading(s)
    ensures Parsing(Message(c, env, s, recMaj, b, whole))
  {
    hide Sound, FinishedHash, Get3, ClientHello, ClientKeyExchange, ServerHello, Certificate;
    if b != [] && Arrive(s, b[0]).Some? {
      var s1 := Arrive(s, b[0]).value;
      var expected := FinishedHash(c, s1.sec.transcript, s1.sec.master, !s1.flags.server);
      if recMaj == 3 && |b| >= 4 && |b| - 4 >= Get3(b[1..]) {
        BodyOutcome(c, env, Hash(s1, b[..4 + Get3(b[1..])]), expected, recMaj, Get3(b[1..]), b[4..]);
      } else if recMaj == 2 {
        BodyOutcome(c, env, Hash(s1, whole), expected, recMaj, |whole| - 1, b[1..]);
      }
      hide Body;
    }
  }

  lemma BodyOutcome(c: Crypto, env: Env, s: Sess, expected: Octets, recMaj: byte, hsLen: nat, b: Octets)
    requires Sound(c) && Core(s) && s.err == ALERT_NONE
    requires s.hsState != HS_CLIENT_HELLO ==> Reading(s)
    ensures Parsing(Body(c, env, s, expected, recMaj, hsLen, b))
  {
    hide Sound, ClientHello, ClientKeyExchange, ServerHello, Certificate;
    if s.hsState == HS_CLIENT_HELLO {
      ClientHelloOutcome(env, s, recMaj, b);
    } else if s.hsState == HS_CLIENT_KEY_EXCHANGE {
      KeyExchangeOutcome(c, env, s, hsLen, b);
    }
  }

  lemma {:induction false} MessagesOutcome(c: Crypto, env: Env, s: Sess, recMaj: byte, b: Octets, whole: Octets)
    requires Sound(c) && whole != [] && Reading(s)
    ensures Parsing(Messages(c, env, s, recMaj, b, whole))
    decreases |b|
  {
    hide Message, Core, Reading;
    MessageOutcome(c, env, s, recMaj, b, whole);
    var p := Message(c, env, s, recMaj, b, whole);
    if p.Accepted? && p.used < |b| {
      MessagesOutcome(c, env, p.s, recMaj, b[p.used..], whole);
    }
  }

  // ---------------------------------------------------------------------------
  // Decoding
  // ---------------------------------------------------------------------------

  lemma IdleResponse(c: Crypto, env: Env, s: Sess, free: nat)
    requires Sound(c)
    ensures s.err != ALERT_NONE ==>
              EncodeResponse(c, env, s, free).s.en.suite == s.en.suite
                  && EncodeResponse(c, env, s, free).s.flags == s.flags
              && !EncodeResponse(c, env, s, free).Failed?
    ensures s.err == ALERT_NONE && s.hsState == HS_CLIENT_HELLO ==>
              EncodeResponse(c, env, s, free) == Flagged(Failed(s, []))
  {
    hide HelloRecords, FinalRecords, ResumeRecords, KeyRecords, Seal, WireSize;
    WriteRecordKeeps(c, s, ALERT, [FATAL, s.err], free);
  }

  lemma AnswerOutcome(c: Crypto, env: Env, s: Sess, used: nat, free: nat)
    requires Sound(c) && Core(s) && (s.err == ALERT_NONE ==> Reading(s))
    ensures var p := Answer(c, env, s, used, free); p.Return? && Inv(p.s)
  {
    hide Sound, EncodeResponse, EncodeClientHello;
    ResponseKeeps(c, env, s, free);
    IdleResponse(c, env, s, free);
  }

  lemma HandleOutcome(c: Crypto, env: Env, s: Sess, rec: Rec, data: Octets, used: nat, free: nat)
    requires Sound(c) && Reading(s)
    ensures var p := Handle(c, env, s, rec, data, used, free);
            !p.Wait? && (p.Loop? ==> Reading(p.s)) && (p.Return? ==> Inv(p.s))
            && (p.Return? && p.report.Data? ==> s.hsState == HS_DONE && s.flags.readSecure && p.report.payload == data)
  {
    hide Sound, Answer, Messages, Repeat;
    forall s1: Sess, u: nat | Core(s1) && (s1.err == ALERT_NONE ==> Reading(s1))
      ensures var p := Answer(c, env, s1, u, free); p.Return? && Inv(p.s) && !p.report.Data?
    {
      AnswerOutcome(c, env, s1, u, free);
      AnswerIsNoData(c, env, s1, u, free);
    }
    if rec.typ == HANDSHAKE && data != [] {
      MessagesOutcome(c, env, s, rec.maj, data, data);
    }
  }

  // Payload comes only from a protected application record of a session whose handshake is done.
  lemma StepOutcome(c: Crypto, env: Env, s: Sess, b: Octets, free: nat)
    requires Sound(c) && Reading(s)
    ensures var p := Step(c, env, s, b, free);
            (p.Loop? ==> Reading(p.s)) && (p.Return? ==> Inv(p.s))
            && (p.Return? && p.report.Data? ==> s.hsState == HS_DONE && s.flags.readSecure)
  {
    hide Sound, Handle, Answer;
    StepHalf(c, s, b, free);
    hide Open;
    match Open(c, AsReader(s), b, free)
    case Bad(alert, half, _) =>
      AnswerOutcome(c, env, Fail(s, alert).(de := half), 0, free);
      AnswerIsNoData(c, env, Fail(s, alert).(de := half), 0, free);
    case Plain(rec, data, half, used) => HandleOutcome(c, env, s.(de := half), rec, data, used, free);
    case _ =>
  }

  // Opening a record does not change the suite, and an error has a name.
  lemma StepHalf(c: Crypto, s: Sess, b: Octets, free: nat)
    requires Sound(c)
    ensures var o := Open(c, AsReader(s), b, free);
            (o.Plain? ==> o.half.suite == s.de.suite)
                && (o.Bad? ==> o.half.suite == s.de.suite && o.alert != ALERT_NONE)
  {
    hide Sound, Decrypt, HeaderAlert, ReadHeader, Mac;
  }

  lemma {:induction false} LoopOutcome(c: Crypto, env: Env, s: Sess, b: Octets, free: nat)
    requires Sound(c) && Reading(s)
    ensures Inv(DecodeLoop(c, env, s, b, free).0)
    decreases |b|
  {
    StepUses(c, env, s, b, free);
    StepOutcome(c, env, s, b, free);
    hide Step;
    match Step(c, env, s, b, free)
    case Loop(s1, used) => LoopOutcome(c, env, s1, b[used..], free);
    case _ =>
  }

  lemma DecodeOutcome(c: Crypto, env: Env, s: Sess, b: Octets, free: nat)
    requires Sound(c) && Inv(s)
    ensures Inv(Decode(c, env, s, b, free).0)
  {
    hide DecodeLoop, Answer;
    if !s.flags.error && !s.flags.closed {
      if s.flags.needEncode {
        AnswerOutcome(c, env, s.(flags := s.flags.(needEncode := false)), 0, free);
      } else {
        LoopOutcome(c, env, s, b, free);
      }
    }
  }

  // ---------------------------------------------------------------------------
  // Every run of calls
  // ---------------------------------------------------------------------------

  datatype Call =
    | Receive(input: Octets, free: nat)
    | Send(payload: Octets, free: nat)
    | CloseNotify(free: nat)
    | AskRehandshake(free: nat)

  function Apply(c: Crypto, env: Env, s: Sess, call: Call): Sess
    requires Sound(c)
  {
    match call
    case Receive(input, free) => Decode(c, env, s, input, free).0
    case Send(payload, free) => Encode(c, s, payload, free).s
    case CloseNotify(free) => EncodeClosureAlert(c, s, free).s
    case AskRehandshake(free) => EncodeHelloRequest(c, s, free).s
  }

  function Run(c: Crypto, env: Env, s: Sess, calls: seq<Call>): Sess
    requires Sound(c)
    decreases |calls|
  {
    if calls == [] then s else Run(c, env, Apply(c, env, s, calls[0]), calls[1..])
  }

  lemma ApplyKeepsInv(c: Crypto, env: Env, s: Sess, call: Call)
    requires Sound(c) && Inv(s)
    ensures Inv(Apply(c, env, s, call))
  {
    hide Sound, WriteRecord, Decode;
    match call
    case Receive(input, free) => DecodeOutcome(c, env, s, input, free);
    case Send(payload, free) => WriteRecordKeeps(c, s, APPLICATION_DATA, payload, free);
    case CloseNotify(free) => WriteRecordKeeps(c, s, ALERT, [WARNING, CLOSE_NOTIFY], free);
    case AskRehandshake(free) => WriteRecordKeeps(c, s, HANDSHAKE, HandshakeData(0, []), free);
  }

  lemma {:induction false} RunKeepsInv(c: Crypto, env: Env, s: Sess, calls: seq<Call>)
    requires Sound(c) && Inv(s)
    ensures Inv(Run(c, env, s, calls))
    decreases |calls|
  {
    hide Apply, Inv;
    if calls != [] {
      ApplyKeepsInv(c, env, s, calls[0]);
      RunKeepsInv(c, env, Apply(c, env, s, calls[0]), calls[1..]);
    }
  }

  // Every reachable server session satisfies the invariant.
  lemma ReachableServer(c: Crypto, env: Env, calls: seq<Call>)
    requires Sound(c)
    ensures Inv(Run(c, env, NewServer(), calls))
  {
    RunKeepsInv(c, env, NewServer(), calls);
  }

  // A dead session stays as it is: no call changes it, every decode reports an error and takes
  // nothing off its input, and nothing can be sent.
  lemma {:induction false} DeadStaysDead(c: Crypto, env: Env, s: Sess, calls: seq<Call>, input: Octets, free: nat)
    requires Sound(c) && s.flags.error
    ensures Run(c, env, s, calls) == s
    ensures Decode(c, env, s, input, free) == (s, 0, Error(ALERT_NONE, []))
    decreases |calls|
  {
    hide DecodeLoop, Answer, WriteRecord;
    if calls != [] {
      DeadStaysDead(c, env, s, calls[1..], input, free);
    }
  }

  // After a close_notify only further closure alerts go out; reading is over: every decode
  // reports an error, takes nothing off its input and changes nothing.
  lemma {:induction false} ClosedStaysClosed(c: Crypto, env: Env, s: Sess, calls: seq<Call>, input: Octets, free: nat)
    requires Sound(c) && s.flags.closed
    ensures var t := Run(c, env, s, calls);
            && t.flags.closed && t.hsState == s.hsState && t.de == s.de
            && t.sec.master == s.sec.master && t.sec.transcript == s.sec.transcript
            && Decode(c, env, t, input, free) == (t, 0, Error(ALERT_NONE, []))
    decreases |calls|
  {
    hide DecodeLoop, Answer;
    if calls != [] {
      ClosedStep(c, env, s, calls[0]);
      hide Apply;
      ClosedStaysClosed(c, env, Apply(c, env, s, calls[0]), calls[1..], input, free);
    }
  }

  lemma ClosedStep(c: Crypto, env: Env, s: Sess, call: Call)
    requires Sound(c) && s.flags.closed
    ensures var t := Apply(c, env, s, call);
            t.flags.closed && t.hsState == s.hsState && t.de == s.de && t.sec.master == s.sec.master
                && t.sec.transcript == s.sec.transcript
  {
    hide DecodeLoop, Answer, Seal, WireSize;
  }

  // ---------------------------------------------------------------------------
  // A warning alert stays in the input
  // ---------------------------------------------------------------------------

  // The input starts with an alert that neither kills nor closes a session able to read it.
  ghost predicate Warned(c: Crypto, s: Sess, b: Octets, free: nat)
    requires Sound(c)
  {
    var o := Open(c, AsReader(s), b, free);
    && !s.flags.error && !s.flags.closed && !s.flags.needEncode
    && o.Plain? && o.rec.typ == ALERT && |o.data| >= 2 && o.data[0] != FATAL && o.data[1] != CLOSE_NOTIFY
  }

  // It is reported and not taken off the input, while the reading side has moved on.
  lemma WarningStays(c: Crypto, env: Env, s: Sess, b: Octets, free: nat)
    requires Sound(c) && Warned(c, s, b, free)
    ensures var o := Open(c, AsReader(s), b, free);
            Decode(c, env, s, b, free) == (s.(de := o.half), 0, Alerted(o.data[0], o.data[1]))
  {
    hide Sound, Open;
    assert b != [] by { EmptyOpens(c, AsReader(s), free); }
  }

  lemma EmptyOpens(c: Crypto, r: Reader, free: nat)
    requires Sound(c)
    ensures Open(c, r, [], free).Short?
  {
    hide Sound;
  }

  // Without protection it has nowhere to move: however often the bytes are handed in again, with
  // whatever behind them, the same alert is reported and nothing is taken.
  lemma {:induction false} PlainWarningRepeats(c: Crypto, env: Env, s: Sess, b: Octets, free: nat, calls: seq<Call>,
                                               rest: Octets)
    requires Sound(c) && Core(s) && !s.flags.readSecure && Warned(c, s, b, free)
    requires forall call <- calls :: call.Receive? && b <= call.input && call.free == free
    ensures var o := Open(c, AsReader(s), b, free);
            Decode(c, env, Run(c, env, s, calls), b + rest, free) == (s, 0, Alerted(o.data[0], o.data[1]))
    decreases |calls|
  {
    hide Sound, Open, Decode;
    var input := if calls == [] then b + rest else calls[0].input;
    OpenIgnoresRest(c, AsReader(s), b, input[|b|..], free);
    assert b + input[|b|..] == input;
    WarningStays(c, env, s, input, free);
    PlainHalfStays(c, AsReader(s), b, free);
    if calls != [] {
      assert Apply(c, env, s, calls[0]) == s;
      PlainWarningRepeats(c, env, s, b, free, calls[1..], rest);
    }
  }

  lemma PlainHalfStays(c: Crypto, r: Reader, b: Octets, free: nat)
    requires Sound(c) && !r.secure && r.half.suite.NullSuite?
    ensures var o := Open(c, r, b, free); o.Plain? ==> o.half == r.half
  {
    hide Sound, ReadHeader, HeaderAlert, Mac;
  }

  // What the record in front of b decrypts to for the reader of s.
  ghost predicate Decrypts(c: Crypto, s: Sess, b: Octets, plain: Octets) {
    var head := ReadHeader(s.ver.maj, b);
    && head.Some? && head.value.1 + head.value.0.len <= |b|
    && var d := Decrypt(c, s.de.suite, s.de.ctx, b[head.value.1..head.value.1 + head.value.0.len]);
       d.Some? && d.value.1 == plain
  }

  // The call records the error; the alert goes out, or waits for room.
  ghost predicate Refused(r: (Sess, nat, Report)) {
    && r.0.err == BAD_RECORD_MAC && r.1 == 0
    && ((r.2.NoRoom? && r.0.flags.needEncode) || (r.2.Error? && r.2.alert == BAD_RECORD_MAC && r.0.flags.error))
  }

  // With protection the next call reads the same bytes with the cipher and the counter of the
  // record after them. It opens a record exactly if what they then decrypt to carries the MAC
  // for that counter; if not, there is a bad record to answer and nothing is taken.
  lemma ProtectedWarningGoesOn(c: Crypto, env: Env, s: Sess, b: Octets, free: nat) returns (plain: Octets)
    requires Sound(c) && Core(s) && s.flags.readSecure && Warned(c, s, b, free)
    ensures var s1 := Decode(c, env, s, b, free).0;
            && s1.de.counter == Next(s.de.counter) && Decrypts(c, s1, b, plain)
            && (Open(c, AsReader(s1), b, free).Plain?
                <==> exists data, pad :: Protects(c, AsReader(s1), ALERT, data, pad, plain))
            && (Open(c, AsReader(s1), b, free).Plain? || Refused(Decode(c, env, s1, b, free)))
  {
    var o := Open(c, AsReader(s), b, free);
    var s1 := s.(de := o.half);
    WarningStays(c, env, s, b, free);
    var ctx;
    ctx, plain := OpenAgain(c, AsReader(s), b, free);
    hide Sound, Open, Protects, Unprotect, Decode, ReadHeader, Decrypt;
    assert AsReader(s1) == AsReader(s).(half := o.half);
    AcceptsExactly(c, AsReader(s1), o.rec, o.used, ctx, plain);
    if Open(c, AsReader(s1), b, free).Bad? {
      BadIsRefused(c, env, s1, b, free);
    }
  }

  lemma BadIsRefused(c: Crypto, env: Env, s: Sess, b: Octets, free: nat)
    requires Sound(c) && Core(s) && !s.flags.error && !s.flags.closed && !s.flags.needEncode
    requires var o := Open(c, AsReader(s), b, free); o.Bad? && o.alert == BAD_RECORD_MAC
    ensures Refused(Decode(c, env, s, b, free))
  {
    hide Sound, Open, Seal, WireSize, EncodeClientHello;
    EmptyOpens(c, AsReader(s), free);
  }

  // ---------------------------------------------------------------------------
  // The handshake ends only on a matching Finished
  // ---------------------------------------------------------------------------

  // A Finished message that carries the client's hash of the transcript as it stood before it,
  // arriving on a protected connection that waits for it.
  ghost predicate ProvesFinished(c: Crypto, m: Sess, msg: Octets) {
    && m.hsState == HS_FINISHED && m.flags.readSecure
    && |msg| >= HS_HEADER + FINISHED_SIZE && msg[0] == HS_FINISHED && Get3(msg[1..]) == FINISHED_SIZE
    && msg[HS_HEADER..HS_HEADER + FINISHED_SIZE] == FinishedHash(c, m.sec.transcript, m.sec.master, false)
  }

  // Parsing the first i bytes of a record's messages leads from s to m.
  ghost predicate Reaches(c: Crypto, env: Env, s: Sess, b: Octets, whole: Octets, i: nat, m: Sess)
    requires Sound(c) && whole != []
    decreases |b|
  {
    if i == 0 then m == s
    else
      var p := Message(c, env, s, 3, b, whole);
      p.Accepted? && p.used <= i && p.used < |b| && Reaches(c, env, p.s, b[p.used..], whole, i - p.used, m)
  }

  lemma MessageToDone(c: Crypto, env: Env, s: Sess, b: Octets, whole: Octets)
    requires Sound(c) && whole != [] && s.flags.server && s.hsState != HS_DONE
    ensures var p := Message(c, env, s, 3, b, whole);
            p.s.hsState == HS_DONE ==> p.Accepted? && ProvesFinished(c, s, b)
    ensures var p := Message(c, env, s, 3, b, whole);
            p.Accepted? ==> p.s.flags.server
  {
    hide Sound, FinishedHash, ClientHello, ClientKeyExchange, ServerHello, Certificate;
    MessageFramed(c, env, s, 3, b, whole);
    if b != [] && Arrive(s, b[0]).Some? && |b| >= 4 && |b| - 4 >= Get3(b[1..]) {
      var n := Get3(b[1..]);
      var s1 := Hash(Arrive(s, b[0]).value, b[..4 + n]);
      NotDone(c, env, s1, 3, n, b[4..]);
      assert b[4..][..n] == b[4..4 + n];
    }
  }

  // No other message leads to the end state.
  lemma NotDone(c: Crypto, env: Env, s: Sess, recMaj: byte, hsLen: nat, b: Octets)
    requires Sound(c) && s.hsState != HS_DONE
    ensures ClientHello(env, s, recMaj, b).s.hsState != HS_DONE
    ensures ClientKeyExchange(c, env, s, hsLen, b).s.hsState != HS_DONE
    ensures ServerHello(c, s, b).s.hsState != HS_DONE
    ensures Certificate(env, s, b).s.hsState != HS_DONE
  {
    hide Sound, Repeat, DeriveKeys, ClientHelloV3, ClientHelloV2, WalkChain, Get2, Get3, GetCipherSpec;
    forall s1: Sess ensures DeriveKeys(c, s1).hsState == s1.hsState { DerivedOutcome(c, s1); }
    forall s1: Sess, d: Octets ensures ClientHelloV3(env, s1, d).s.hsState == s1.hsState { HelloV3State(env, s1, d); }
    forall s1: Sess, d: Octets ensures ClientHelloV2(s1, d).s.hsState == s1.hsState { HelloV2State(s1, d); }
  }

  lemma HelloV3State(env: Env, s: Sess, b: Octets)
    ensures ClientHelloV3(env, s, b).s.hsState == s.hsState
  {
    hide PickSuite, Get2, Repeat;
  }

  lemma HelloV2State(s: Sess, b: Octets)
    ensures ClientHelloV2(s, b).s.hsState == s.hsState
  {
    hide PickNew, Get2, Repeat;
  }

  lemma {:induction false} DoneNeedsFinished(c: Crypto, env: Env, s: Sess, b: Octets, whole: Octets)
    returns (i: nat, m: Sess)
    requires Sound(c) && whole != [] && s.flags.server && s.hsState != HS_DONE
    requires Messages(c, env, s, 3, b, whole).s.hsState == HS_DONE
    ensures i < |b| && Reaches(c, env, s, b, whole, i, m) && ProvesFinished(c, m, b[i..])
    decreases |b|
  {
    var p := Message(c, env, s, 3, b, whole);
    MessageToDone(c, env, s, b, whole);
    hide Message, ProvesFinished;
    if p.s.hsState == HS_DONE {
      i, m := 0, s;
      assert b != [] by { EmptyRejected(c, env, s, whole); }
      assert b[0..] == b;
    } else {
      var j: nat;
      j, m := DoneNeedsFinished(c, env, p.s, b[p.used..], whole);
      i := p.used + j;
      assert b[p.used..][j..] == b[i..];
    }
  }

  lemma EmptyRejected(c: Crypto, env: Env, s: Sess, whole: Octets)
    requires Sound(c) && whole != []
    ensures Message(c, env, s, 3, [], whole).Rejected?
  {
  }

  // A pass that ends the handshake has opened a handshake record that carries such a Finished.
  lemma PassToDone(c: Crypto, env: Env, s: Sess, b: Octets, free: nat) returns (data: Octets, i: nat, m: Sess)
    requires Sound(c) && Reading(s) && s.hsState != HS_DONE
    requires var p := Step(c, env, s, b, free); !p.Wait? && p.s.hsState == HS_DONE
    ensures var o := Open(c, AsReader(s), b, free);
            o.Plain? && o.rec.typ == HANDSHAKE && o.data == data && i < |data|
            && Reaches(c, env, s.(de := o.half), data, data, i, m) && ProvesFinished(c, m, data[i..])
  {
    hide Sound, Open, Answer, Messages, Reaches, ProvesFinished, Repeat;
    var o := Open(c, AsReader(s), b, free);
    forall s1: Sess, u: nat | Core(s1)
      ensures Answer(c, env, s1, u, free).Return? && Answer(c, env, s1, u, free).s.hsState == s1.hsState
    {
      AnswerKeepsState(c, env, s1, u, free);
    }
    StepHalf(c, s, b, free);
    assert o.Plain?;
    var s1 := s.(de := o.half);
    assert o.rec.typ == HANDSHAKE && o.data != [];
    data := o.data;
    MessagesOutcome(c, env, s1, o.rec.maj, data, data);
    PassVersion(c, env, s, b, free);
    i, m := DoneNeedsFinished(c, env, s1, data, data);
  }

  lemma AnswerKeepsState(c: Crypto, env: Env, s: Sess, used: nat, free: nat)
    requires Sound(c) && Core(s)
    ensures Answer(c, env, s, used, free).Return? && Answer(c, env, s, used, free).s.hsState == s.hsState
  {
    hide EncodeResponse, EncodeClientHello;
    ResponseKeeps(c, env, s, free);
  }

  // From the ClientHello on only the negotiated version is read; the ClientHello itself does
  // not end the handshake.
  lemma PassVersion(c: Crypto, env: Env, s: Sess, b: Octets, free: nat)
    requires Sound(c) && Reading(s) && s.hsState != HS_DONE
    requires var o := Open(c, AsReader(s), b, free); o.Plain? && o.data != []
    requires var o := Open(c, AsReader(s), b, free);
             Messages(c, env, s.(de := o.half), o.rec.maj, o.data, o.data).s.hsState == HS_DONE
    ensures Open(c, AsReader(s), b, free).rec.maj == 3
  {
    var o := Open(c, AsReader(s), b, free);
    OpenVersion(c, AsReader(s), b, free);
    if s.hsState == HS_CLIENT_HELLO {
      HelloEndsRecord(c, env, s.(de := o.half), o.rec.maj, o.data);
    }
    hide Open, Messages;
  }

  lemma OpenVersion(c: Crypto, r: Reader, b: Octets, free: nat)
    requires Sound(c)
    ensures var o := Open(c, r, b, free); o.Plain? && r.checkVersion ==> o.rec.maj == r.maj
  {
    hide Sound, Decrypt, Mac, ReadHeader;
  }

  lemma HelloEndsRecord(c: Crypto, env: Env, s: Sess, recMaj: byte, data: Octets)
    requires Sound(c) && data != [] && s.hsState == HS_CLIENT_HELLO
    ensures var p := Messages(c, env, s, recMaj, data, data); p.s.hsState != HS_DONE
  {
    var p := Message(c, env, s, recMaj, data, data);
    HelloUsesAll(c, env, s, recMaj, data);
    hide Message;
  }

  lemma HelloUsesAll(c: Crypto, env: Env, s: Sess, recMaj: byte, data: Octets)
    requires Sound(c) && data != [] && s.hsState == HS_CLIENT_HELLO
    ensures var p := Message(c, env, s, recMaj, data, data);
            p.s.hsState != HS_DONE && (p.Accepted? ==> p.used == |data|)
  {
    hide Sound, FinishedHash, Get3, ClientHelloV3, ClientHelloV2;
    forall s1: Sess, d: Octets ensures ClientHelloV3(env, s1, d).s.hsState == s1.hsState { HelloV3State(env, s1, d); }
    forall s1: Sess, d: Octets ensures ClientHelloV2(s1, d).s.hsState == s1.hsState { HelloV2State(s1, d); }
  }

  // ---------------------------------------------------------------------------
  // Every call of every run
  // ---------------------------------------------------------------------------

  // A record that does not end a call leaves the state of the handshake alone.
  lemma LoopKeepsState(c: Crypto, env: Env, s: Sess, b: Octets, free: nat)
    requires Sound(c)
    ensures var p := Step(c, env, s, b, free); p.Loop? ==> p.s.hsState == s.hsState
  {
    hide Sound, Open, Answer, Messages;
    forall s1: Sess, u: nat ensures Answer(c, env, s1, u, free).Return? { AnswerReturns(c, env, s1, u, free); }
  }

  // The first n bytes of a call's input are records that did not end it; r is the session then.
  ghost predicate LoopsTo(c: Crypto, env: Env, s: Sess, b: Octets, free: nat, n: nat, r: Sess)
    requires Sound(c)
    decreases |b|
  {
    if n == 0 then r == s
    else
      var p := Step(c, env, s, b, free);
      p.Loop? && 0 < p.used <= n && p.used <= |b| && LoopsTo(c, env, p.s, b[p.used..], free, n - p.used, r)
  }

  // The record in front of b is a handshake record with a Finished, in place i, that proves
  // knowledge of the transcript and master secret of session m, in which it is met.
  ghost predicate FinishesAt(c: Crypto, env: Env, r: Sess, b: Octets, free: nat, i: nat, m: Sess)
    requires Sound(c)
  {
    var o := Open(c, AsReader(r), b, free);
    && o.Plain? && o.rec.typ == HANDSHAKE && i < |o.data|
    && Reaches(c, env, r.(de := o.half), o.data, o.data, i, m) && ProvesFinished(c, m, o.data[i..])
  }

  lemma {:induction false} LoopToDone(c: Crypto, env: Env, s: Sess, b: Octets, free: nat)
    returns (n: nat, r: Sess, i: nat, m: Sess)
    requires Sound(c) && Reading(s) && s.hsState != HS_DONE && DecodeLoop(c, env, s, b, free).0.hsState == HS_DONE
    ensures n <= |b| && LoopsTo(c, env, s, b, free, n, r) && FinishesAt(c, env, r, b[n..], free, i, m)
    decreases |b|
  {
    hide Sound, Step, Open, Reaches, ProvesFinished, Reading;
    StepUses(c, env, s, b, free);
    StepOutcome(c, env, s, b, free);
    LoopKeepsState(c, env, s, b, free);
    var p := Step(c, env, s, b, free);
    if p.Loop? {
      n, r, i, m := LoopToDone(c, env, p.s, b[p.used..], free);
      assert b[p.used..][n..] == b[p.used + n..];
      n := p.used + n;
    } else {
      var data;
      data, i, m := PassToDone(c, env, s, b, free);
      n, r := 0, s;
      assert b[0..] == b;
    }
  }

  lemma {:induction false} LoopDelivers(c: Crypto, env: Env, s: Sess, b: Octets, free: nat)
    requires Sound(c) && Reading(s) && DecodeLoop(c, env, s, b, free).2.Data?
    ensures s.hsState == HS_DONE
    decreases |b|
  {
    hide Sound, Step, Reading;
    StepUses(c, env, s, b, free);
    StepOutcome(c, env, s, b, free);
    LoopKeepsState(c, env, s, b, free);
    WaitIsNoData(c, env, s, b, free);
    var p := Step(c, env, s, b, free);
    if p.Loop? {
      LoopDelivers(c, env, p.s, b[p.used..], free);
    }
  }

  lemma WaitIsNoData(c: Crypto, env: Env, s: Sess, b: Octets, free: nat)
    requires Sound(c)
    ensures var p := Step(c, env, s, b, free); p.Wait? ==> !p.report.Data?
  {
    hide Sound, Open, Messages, Answer;
    forall s1: Sess, u: nat ensures Answer(c, env, s1, u, free).Return? { AnswerReturns(c, env, s1, u, free); }
  }

  lemma MayRead(s: Sess)
    requires Inv(s) && !s.flags.error && !s.flags.needEncode
    ensures Reading(s)
  {
  }

  lemma MayAnswer(s: Sess)
    requires Inv(s)
    ensures Core(s.(flags := s.flags.(needEncode := false)))
  {
  }

  // In any run payload is delivered only by a call on a session whose handshake is done and whose
  // reading side is protected.
  lemma RunDelivers(c: Crypto, env: Env, calls: seq<Call>, input: Octets, free: nat)
    requires Sound(c)
    ensures var s := Run(c, env, NewServer(), calls);
            Decode(c, env, s, input, free).2.Data? ==> s.hsState == HS_DONE && s.flags.readSecure
  {
    hide Sound, Run, DecodeLoop, Answer, Negotiated;
    ReachableServer(c, env, calls);
    var s := Run(c, env, NewServer(), calls);
    if Decode(c, env, s, input, free).2.Data? {
      if s.flags.needEncode {
        AnswerIsNoData(c, env, s.(flags := s.flags.(needEncode := false)), 0, free);
      } else {
        MayRead(s);
        LoopDelivers(c, env, s, input, free);
      }
    }
  }

  // In any run a call that ends the handshake reads a Finished that matches the transcript, after
  // records of its input that did not end the call.
  lemma RunEnds(c: Crypto, env: Env, calls: seq<Call>, input: Octets, free: nat)
    returns (n: nat, r: Sess, i: nat, m: Sess)
    requires Sound(c)
    requires var s := Run(c, env, NewServer(), calls);
             s.hsState != HS_DONE && Decode(c, env, s, input, free).0.hsState == HS_DONE
    ensures var s := Run(c, env, NewServer(), calls);
            n <= |input| && LoopsTo(c, env, s, input, free, n, r) && FinishesAt(c, env, r, input[n..], free, i, m)
  {
    hide Sound, Run, DecodeLoop, Answer, Negotiated, Core, LoopsTo, FinishesAt;
    ReachableServer(c, env, calls);
    var s := Run(c, env, NewServer(), calls);
    if s.flags.needEncode {
      MayAnswer(s);
      AnswerKeepsState(c, env, s.(flags := s.flags.(needEncode := false)), 0, free);
    }
    MayRead(s);
    n, r, i, m := LoopToDone(c, env, s, input, free);
  }

  // The other calls do not touch the state of the handshake.
  lemma SendingKeepsState(c: Crypto, env: Env, s: Sess, call: Call)
    requires Sound(c) && !call.Receive?
    ensures Apply(c, env, s, call).hsState == s.hsState
  {
    hide Sound, WriteRecord, Decode;
    match call
    case Send(payload, free) => WriteRecordKeeps(c, s, APPLICATION_DATA, payload, free);
    case CloseNotify(free) => WriteRecordKeeps(c, s, ALERT, [WARNING, CLOSE_NOTIFY], free);
    case AskRehandshake(free) => WriteRecordKeeps(c, s, HANDSHAKE, HandshakeData(0, []), free);
    case Receive(_, _) =>
  }
}
