/** The decoder: one pass over one record, one call of the decoder, and the receive loop of an
    application that calls it until the input is used up. */
module SslDecode {
  import opened Bytes
  import opened SslCrypto
  import opened SslRecord
  import opened SslState
  import opened SslHandshake
  import opened SslFlight

  // What a call reports. Respond carries records to send, Data a payload to deliver.
  datatype Report =
    | Success
    | Partial
    | NoRoom(out: Octets)                // grow the buffer and call again
    | Respond(out: Octets)
    | Data(payload: Octets)
    | Alerted(level: byte, description: byte)
    | Error(alert: byte, out: Octets)

  // A pass either waits, or loops after eating used bytes, or returns after eating used bytes.
  datatype Pass =
    | Wait(report: Report)
    | Loop(s: Sess, used: nat)
    | Return(s: Sess, used: nat, report: Report)

  // What a call makes of the answer it wrote: an alert is fatal, lack of room defers it.
  function Settle(w: Written, used: nat): Pass {
    match w
    case Wrote(s, out) =>
      if s.err != ALERT_NONE then Return(s.(flags := s.flags.(error := true)), used, Error(s.err, out))
      else Return(s, used, Respond(out))
    case Full(s, out) => Return(s.(flags := s.flags.(needEncode := true)), used, NoRoom(out))
    case Failed(s, out) => Return(s, used, Error(ALERT_NONE, out))
  }

  // The tail of the decoder: write the owed answer.
  function Answer(c: Crypto, env: Env, s: Sess, used: nat, free: nat): Pass
    requires Sound(c)
  {
    Settle(if s.hsState == HS_HELLO_REQUEST then EncodeClientHello(c, env, s, s.cipher.Id(), free)
           else EncodeResponse(c, env, s, free), used)
  }

  lemma AnswerIsNoData(c: Crypto, env: Env, s: Sess, used: nat, free: nat)
    requires Sound(c)
    ensures var p := Answer(c, env, s, used, free); p.Return? && !p.report.Data?
  {
    hide EncodeResponse, EncodeClientHello;
  }

  function HandleChangeCipherSpec(c: Crypto, env: Env, s: Sess, data: Octets, used: nat, free: nat): Pass
    requires Sound(c)
  {
    if data == [] || data[0] != 1 then Answer(c, env, Fail(s, ILLEGAL_PARAMETER), 0, free)
    else if s.hsState != HS_FINISHED then Answer(c, env, Fail(s, UNEXPECTED_MESSAGE), 0, free)
    else Loop(ActivateRead(c, s), used)
  }

  function HandleAlert(c: Crypto, env: Env, s: Sess, data: Octets, free: nat): Pass
    requires Sound(c)
  {
    if |data| < 2 then Answer(c, env, Fail(s, ILLEGAL_PARAMETER), 0, free)
    else
      var flags := s.flags.(error := s.flags.error || data[0] == FATAL, closed := s.flags.closed
                            || data[1] == CLOSE_NOTIFY);
      Return(s.(flags := flags), 0, Alerted(data[0], data[1]))
  }

  function HandleHandshake(c: Crypto, env: Env, s: Sess, recMaj: byte, data: Octets, used: nat, free: nat): Pass
    requires Sound(c)
  {
    if data == [] then Answer(c, env, Fail(s, ILLEGAL_PARAMETER), 0, free)
    else
      match Messages(c, env, s, recMaj, data, data)
      case Accepted(s1, _, respond) => if respond then Answer(c, env, s1, used, free) else Return(s1, used, Success)
      case Rejected(s1) => Answer(c, env, if s1.err == ALERT_NONE then Fail(s1, HANDSHAKE_FAILURE) else s1, 0, free)
  }

  // Empty payloads are eaten, up to a limit.
  function HandleApplication(c: Crypto, env: Env, s: Sess, data: Octets, used: nat, free: nat): Pass
    requires Sound(c)
  {
    if (s.hsState != HS_DONE && s.hsState != HS_SERVER_HELLO) || !s.flags.readSecure then
      Answer(c, env, Fail(s, UNEXPECTED_MESSAGE), 0, free)
    else if data == [] then
      var s1 := s.(ignored := s.ignored + 1);
      if s.ignored < MAX_IGNORED then Loop(s1, used) else Answer(c, env, Fail(s1, UNEXPECTED_MESSAGE), used, free)
    else Return(s, used, Data(data))
  }

  function Handle(c: Crypto, env: Env, s: Sess, rec: Rec, data: Octets, used: nat, free: nat): Pass
    requires Sound(c)
  {
    if rec.typ == CHANGE_CIPHER_SPEC then HandleChangeCipherSpec(c, env, s, data, used, free)
    else if rec.typ == ALERT then HandleAlert(c, env, s, data, free)
    else if rec.typ == HANDSHAKE then HandleHandshake(c, env, s, rec.maj, data, used, free)
    else HandleApplication(c, env, s, data, used, free)
  }

  // One pass of the decoder's loop.
  function Step(c: Crypto, env: Env, s: Sess, b: Octets, free: nat): Pass
    requires Sound(c)
  {
    if b == [] then Wait(Success)
    else
      match Open(c, AsReader(s), b, free)
      case Short => Wait(Partial)
      case Tight => Wait(NoRoom([]))
      case Bad(alert, half, _) => Answer(c, env, Fail(s, alert).(de := half), 0, free)
      case Plain(rec, data, half, used) => Handle(c, env, s.(de := half), rec, data, used, free)
  }

  // One call: passes until one returns. used counts what the call took off the input.
  function Decode(c: Crypto, env: Env, s: Sess, b: Octets, free: nat): (r: (Sess, nat, Report))
    requires Sound(c)
    ensures r.1 <= |b|
    decreases |b|
  {
    if s.flags.error || s.flags.closed then (s, 0, Error(ALERT_NONE, []))
    else if s.flags.needEncode then
      var p := Answer(c, env, s.(flags := s.flags.(needEncode := false)), 0, free);
      (p.s, 0, p.report)
    else DecodeLoop(c, env, s, b, free)
  }

  function DecodeLoop(c: Crypto, env: Env, s: Sess, b: Octets, free: nat): (r: (Sess, nat, Report))
    requires Sound(c)
    ensures r.1 <= |b|
    decreases |b|
  {
    StepUses(c, env, s, b, free);
    match Step(c, env, s, b, free)
    case Wait(report) => (s, 0, report)
    case Return(s1, used, report) => (s1, used, report)
    case Loop(s1, used) =>
      var r := DecodeLoop(c, env, s1, b[used..], free);
      (r.0, used + r.1, r.2)
  }

  lemma AnswerReturns(c: Crypto, env: Env, s: Sess, used: nat, free: nat)
    requires Sound(c)
    ensures Answer(c, env, s, used, free).Return? && Answer(c, env, s, used, free).used == used
  {
    hide EncodeResponse, EncodeClientHello;
  }

  // An answer to an error is never mistaken for progress.
  lemma AnswerToError(c: Crypto, env: Env, s: Sess, used: nat, free: nat)
    requires Sound(c) && s.err != ALERT_NONE
    ensures Answer(c, env, s, used, free).Return? && Answer(c, env, s, used, free).used == used
    ensures var report := Answer(c, env, s, used, free).report; report.Error? || report.NoRoom?
  {
    hide Sound, Seal, CipherSpecList, ClientHelloBody;
  }

  predicate Progress(report: Report) {
    report.Success? || report.Respond? || report.Data?
  }

  lemma HandleUses(c: Crypto, env: Env, s: Sess, rec: Rec, data: Octets, used: nat, free: nat)
    requires Sound(c)
    ensures var p := Handle(c, env, s, rec, data, used, free);
            !p.Wait? && (p.used == used || p.used == 0) && (p.Loop? ==> p.used == used)
            && (p.Return? && Progress(p.report) ==> p.used == used)
  {
    hide Answer, Messages, ActivateRead;
    forall s1: Sess, u: nat { AnswerReturns(c, env, s1, u, free); }
    forall s1: Sess, u: nat | s1.err != ALERT_NONE { AnswerToError(c, env, s1, u, free); }
  }

  // Every pass that gets anywhere consumes a whole record.
  lemma StepUses(c: Crypto, env: Env, s: Sess, b: Octets, free: nat)
    requires Sound(c)
    ensures var p := Step(c, env, s, b, free);
            (p.Loop? ==> 0 < p.used <= |b|) && (p.Return? ==> p.used <= |b|)
            && (p.Return? && Progress(p.report) ==> 0 < p.used)
            && (p.Wait? ==> p.report.Success? == (b == []) && !p.report.Respond? && !p.report.Data?)
  {
    hide Open, Handle, Answer;
    if b != [] {
      OpenBound(c, AsReader(s), b, free);
      OpenUsesHeader(c, AsReader(s), b, free);
      match Open(c, AsReader(s), b, free)
      case Bad(alert, half, _) => AnswerToError(c, env, Fail(s, alert).(de := half), 0, free);
      case Plain(rec, data, half, used) => HandleUses(c, env, s.(de := half), rec, data, used, free);
      case _ =>
    }
  }

  lemma OpenUsesHeader(c: Crypto, r: Reader, b: Octets, free: nat)
    requires Sound(c)
    ensures var o := Open(c, r, b, free);
            (o.Plain? ==> 2 <= o.used <= |b|) && (o.Bad? ==> o.alert != ALERT_NONE)
  {
    hide Sound, Decrypt, HeaderAlert, ReadHeader, Mac;
  }
}
