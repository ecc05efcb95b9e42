/** The end of a handshake: each side changes cipher and sends its Finished. */
module SslClosing {
  import opened Bytes
  import opened SslCrypto
  import opened SslRecord
  import opened SslState
  import opened SslHandshake
  import opened SslFlight
  import opened SslDecode
  import opened SslStream
  import opened SslPasses
  import opened SslReadBack
  import opened SslFlightSize
  import opened SslConversation

  // ---------------------------------------------------------------------------
  // One side closes
  // ---------------------------------------------------------------------------

  // Both ends have derived their keys; w may still be in the clear when it writes, r when it reads.
  ghost predicate Matched(w: Sess, r: Sess) {
    && w.flags.server != r.flags.server
    && w.cipher == r.cipher && !w.cipher.NullSuite?
    && w.sec.transcript == r.sec.transcript && w.sec.master == r.sec.master
    && Mirrored(w.sec.slices, r.sec.slices)
    && w.ver.maj == 3 && w.ver.min == 0 && r.ver.maj == 3 && r.ver.min == 0
  }

  function FinishedData(c: Crypto, w: Sess): Octets {
    HandshakeData(20, FinishedHash(c, w.sec.transcript, w.sec.master, w.flags.server))
  }

  lemma FinishedDataSize(c: Crypto, w: Sess)
    requires Sound(c)
    ensures |FinishedData(c, w)| == HS_HEADER + FINISHED_SIZE
  {
    FinishedHashLength(c, w.sec.transcript, w.sec.master, w.flags.server);
    hide Sound, FinishedHash;
  }

  // The protection the Finished goes out under, after the record and before it.
  function FirstHalf(c: Crypto, w: Sess): Half {
    Activate(c, w.cipher, w.sec.slices.wMac, w.sec.slices.wKey, w.sec.slices.wIv)
  }

  function ClosedHalf(c: Crypto, w: Sess): Half {
    Seal(c, FirstHalf(c, w), HANDSHAKE, 3, 0, FinishedData(c, w)).0
  }

  function ClosedWriter(c: Crypto, w: Sess): Sess {
    w.(en := ClosedHalf(c, w), flags := w.flags.(writeSecure := true),
       sec := w.sec.(transcript := w.sec.transcript + FinishedData(c, w), cert := None))
  }

  function ClosingRecords(c: Crypto, w: Sess): Octets {
    Bare(CHANGE_CIPHER_SPEC, [1]) + Seal(c, FirstHalf(c, w), HANDSHAKE, 3, 0, FinishedData(c, w)).1
  }

  lemma ClosingWritten(c: Crypto, w: Sess, free: int)
    requires Sound(c) && PlainWriter(w) && !w.cipher.NullSuite? && free >= 0x100
    ensures FinalRecords(c, w, free) == Wrote(ClosedWriter(c, w), ClosingRecords(c, w))
  {
    hide Sound, FinishedHash, Seal, Overhead, Bare, HandshakeData, Activate;
    PlainWrite(c, w, CHANGE_CIPHER_SPEC, [1], free);
    var w1 := ActivateWrite(c, w);
    FinishedDataSize(c, w);
    OverheadBound(w.cipher);
    FirstHalfSuite(c, w);
  }

  lemma FirstHalfSuite(c: Crypto, w: Sess)
    ensures FirstHalf(c, w).suite == w.cipher
  {
  }

  lemma OverheadBound(suite: Suite)
    ensures Overhead(suite, HS_HEADER + FINISHED_SIZE) <= 28
  {
  }

  // The reader's state once it has taken the Finished in.
  function ClosedReader(c: Crypto, w: Sess, r: Sess): Sess {
    r.(de := ClosedHalf(c, w), flags := r.flags.(readSecure := true), hsState := HS_DONE,
       sec := r.sec.(transcript := r.sec.transcript + FinishedData(c, w), cert := None))
  }

  lemma FirstHalfMatches(c: Crypto, w: Sess, r: Sess)
    requires Matched(w, r)
    ensures ActivateRead(c, r) == r.(de := FirstHalf(c, w), flags := r.flags.(readSecure := true))
    ensures FirstHalf(c, w).suite == w.cipher
  {
  }

  lemma FinishedBody(c: Crypto, env: Env, w: Sess, r: Sess)
    requires Sound(c) && Matched(w, r) && r.hsState == HS_FINISHED && r.flags.readSecure
    ensures var hash := FinishedHash(c, w.sec.transcript, w.sec.master, w.flags.server);
            |hash| == FINISHED_SIZE
            && Arrive(r, 20) == Some(r)
            && hash == FinishedHash(c, r.sec.transcript, r.sec.master, !r.flags.server)
            && Body(c, env, Hash(r, FinishedData(c, w)), hash, 3, |hash|, hash)
               == Accepted(r.(hsState := HS_DONE,
                              sec := r.sec.(transcript := r.sec.transcript + FinishedData(c, w), cert := None)),
                           FINISHED_SIZE, r.flags.server != r.flags.resumed)
  {
    FinishedHashLength(c, w.sec.transcript, w.sec.master, w.flags.server);
    FinishedRead(Hash(r, FinishedData(c, w)), FinishedHash(c, w.sec.transcript, w.sec.master, w.flags.server));
    hide Sound, FinishedHash, Finished, HandshakeData, Mirrored;
  }

  // The pass over the Finished record.
  lemma FinishedPass(c: Crypto, env: Env, w: Sess, r: Sess, free: nat)
    requires Sound(c) && Matched(w, r) && PlainReader(r) && r.hsState == HS_FINISHED && 0x10000 <= free
    ensures var r1 := ActivateRead(c, r);
            var wire := Seal(c, FirstHalf(c, w), HANDSHAKE, 3, 0, FinishedData(c, w)).1;
            Step(c, env, r1, wire, free)
            == if r.flags.server != r.flags.resumed then Answer(c, env, ClosedReader(c, w, r), |wire|, free)
               else Return(ClosedReader(c, w, r), |wire|, Success)
  {
    hide Sound, FinishedHash, Seal, Step, Handle, Answer, Body, Activate, HandshakeData, Mirrored;
    var h := FirstHalf(c, w);
    FirstHalfMatches(c, w, r);
    var r1 := ActivateRead(c, r);
    FinishedDataSize(c, w);
    var data := FinishedData(c, w);
    var wire := Seal(c, h, HANDSHAKE, 3, 0, data).1;
    SecurePass(c, env, h, r1, HANDSHAKE, data, [], free);
    assert wire + [] == wire;
    var r2 := r1.(de := ClosedHalf(c, w));
    FinishedBody(c, env, w, r2);
    var hash := FinishedHash(c, w.sec.transcript, w.sec.master, w.flags.server);
    OneMessageHandled(c, env, r2, |Fragment(c, h, HANDSHAKE, data)|, 20, hash, |wire|, free);
    hide Matched, InStep, AsReader, Arrive;
    assert r2.(hsState := HS_DONE, sec := r2.sec.(transcript := r2.sec.transcript + data, cert := None))
           == ClosedReader(c, w, r);
  }

  // ---------------------------------------------------------------------------
  // Both sides close
  // ---------------------------------------------------------------------------

  // A pass that returns success, or loops, hands the rest of the input to the next pass.
  lemma DrainOver(c: Crypto, env: Env, s: Sess, wire: Octets, rest: Octets, s1: Sess, free: nat)
    requires Sound(c) && Usable(s) && Usable(s1)
    requires var p := Step(c, env, s, wire + rest, free); p == Return(s1, |wire|, Success) || p == Loop(s1, |wire|)
    ensures Drain(c, env, Conn(s, wire + rest, [], false), free) == Drain(c, env, Conn(s1, rest, [], false), free)
  {
    hide Step, Drain, Usable;
    DrainPass(c, env, Conn(s, wire + rest, [], false), free);
    assert (wire + rest)[|wire|..] == rest;
  }

  // A pass over the last record that answers ends the drain with the answer.
  lemma DrainAnswer(c: Crypto, env: Env, s: Sess, wire: Octets, s1: Sess, out: Octets, free: nat)
    requires Sound(c) && Usable(s) && Usable(s1)
    requires Step(c, env, s, wire, free) == Return(s1, |wire|, Respond(out))
    ensures Drain(c, env, Conn(s, wire, [], false), free) == Conn(s1, [], [Respond(out)], false)
  {
    hide Step, Drain, Usable;
    DrainPass(c, env, Conn(s, wire, [], false), free);
    EmptyDrain(c, env, s1, [Respond(out)], free);
    assert wire[|wire|..] == [];
    assert [] + [Respond(out)] == [Respond(out)];
  }

  lemma ReadableUsable(c: Crypto, w: Sess, r: Sess)
    requires Usable(r)
    ensures Usable(ActivateRead(c, r)) && Usable(ClosedReader(c, w, r))
  {
    hide Activate, ClosedHalf, FinishedData;
  }

  lemma WritableUsable(c: Crypto, w: Sess)
    requires Usable(w)
    ensures Usable(ClosedWriter(c, w))
  {
    hide ClosedHalf, FinishedData;
  }

  // Up to the Finished record.
  lemma DrainChange(c: Crypto, env: Env, w: Sess, r: Sess, free: nat)
    requires Sound(c) && PlainReader(r) && r.hsState == HS_FINISHED && Usable(r) && 0x10000 <= free
    ensures Drain(c, env, Conn(r, ClosingRecords(c, w), [], false), free)
         == Drain(c, env,
                  Conn(ActivateRead(c, r), Seal(c, FirstHalf(c, w), HANDSHAKE, 3, 0, FinishedData(c, w)).1, [], false),
                      free)
  {
    var wire := Seal(c, FirstHalf(c, w), HANDSHAKE, 3, 0, FinishedData(c, w)).1;
    ReadableUsable(c, w, r);
    ChangePass(c, env, r, wire, free);
    assert |Bare(CHANGE_CIPHER_SPEC, [1])| == HEADER + 1;
    hide Sound, Step, Drain, Usable, PlainReader, ActivateRead, Seal, FinishedData, Bare, FirstHalf;
    DrainOver(c, env, r, Bare(CHANGE_CIPHER_SPEC, [1]), wire, ActivateRead(c, r), free);
  }

  // The side that closes first waits for the other's Finished afterwards.
  ghost predicate ReadyToClose(a: Sess, b: Sess) {
    && Matched(a, b)
    && Usable(a) && PlainWriter(a) && PlainReader(a) && a.hsState == HS_FINISHED && a.flags.server == a.flags.resumed
    && Usable(b) && PlainWriter(b) && PlainReader(b) && b.hsState == HS_FINISHED && b.flags.server != b.flags.resumed
    && a.err == ALERT_NONE && b.err == ALERT_NONE
  }

  // The second side reads the first's closing records and answers with its own.
  lemma SecondCloses(c: Crypto, env: Env, a: Sess, b: Sess, free: nat)
    requires Sound(c) && ReadyToClose(a, b) && 0x10000 <= free
    ensures var b1 := ClosedReader(c, a, b);
            Drain(c, env, Conn(b, ClosingRecords(c, a), [], false), free)
            == Conn(ClosedWriter(c, b1), [], [Respond(ClosingRecords(c, b1))], false)
  {
    hide Sound, FinishedHash, Seal, Step, Drain, Mirrored, HandshakeData, Activate;
    DrainChange(c, env, a, b, free);
    FinishedPass(c, env, a, b, free);
    ReadableUsable(c, a, b);
    var b1 := ClosedReader(c, a, b);
    WritableUsable(c, b1);
    FinalAnswer(c, env, b1, free);
    var wire := Seal(c, FirstHalf(c, a), HANDSHAKE, 3, 0, FinishedData(c, a)).1;
    hide ClosedReader, ClosedWriter, ClosingRecords, FirstHalf, FinishedData, ActivateRead, Usable;
    assert forall n: nat ::
      Answer(c, env, b1, n, free) == Return(ClosedWriter(c, b1), n, Respond(ClosingRecords(c, b1)));
    DrainAnswer(c, env, ActivateRead(c, b), wire, ClosedWriter(c, b1), ClosingRecords(c, b1), free);
  }

  lemma FinalAnswer(c: Crypto, env: Env, s: Sess, free: nat)
    requires Sound(c) && PlainWriter(s) && !s.cipher.NullSuite? && s.hsState == HS_DONE && s.err == ALERT_NONE
             && free >= 0x100
    ensures forall n: nat :: Answer(c, env, s, n, free) == Return(ClosedWriter(c, s), n, Respond(ClosingRecords(c, s)))
  {
    ClosingWritten(c, s, free);
    hide Sound, FinalRecords, ClosedHalf, FinishedData, ClosingRecords;
  }

  // The first side reads the second's closing records.
  lemma FirstEnds(c: Crypto, env: Env, a: Sess, b: Sess, free: nat)
    requires Sound(c) && ReadyToClose(a, b) && 0x10000 <= free
    ensures var b1 := ClosedReader(c, a, b);
            var a1 := ClosedWriter(c, a);
            Drain(c, env, Conn(a1, ClosingRecords(c, b1), [], false), free)
                == Conn(ClosedReader(c, b1, a1), [], [], false)
  {
    hide Sound, FinishedHash, Seal, Step, Drain, HandshakeData, Activate;
    var b1 := ClosedReader(c, a, b);
    var a1 := ClosedWriter(c, a);
    assert Matched(b1, a1);
    DrainChange(c, env, b1, a1, free);
    FinishedPass(c, env, b1, a1, free);
    WritableUsable(c, a);
    ReadableUsable(c, b1, a1);
    var wire := Seal(c, FirstHalf(c, b1), HANDSHAKE, 3, 0, FinishedData(c, b1)).1;
    var a2 := ClosedReader(c, b1, a1);
    hide ClosedReader, ClosedWriter, ClosingRecords, FirstHalf, FinishedData, ActivateRead, Usable, Matched;
    assert wire + [] == wire;
    DrainOver(c, env, ActivateRead(c, a1), wire, [], a2, free);
    EmptyDrain(c, env, a2, [], free);
  }

  // ---------------------------------------------------------------------------
  // Where it ends
  // ---------------------------------------------------------------------------

  // Both sides are done and agree on everything they negotiated: the transcript, the master
  // secret, the suite and the keys of either direction, each with one record behind it.
  ghost predicate Established(a: Sess, b: Sess, suite: Suite) {
    && Linked(a, b) && Linked(b, a)
    && a.cipher == suite && b.cipher == suite && a.en.suite == suite && b.en.suite == suite
    && a.sec.transcript == b.sec.transcript
    && a.sec.master == b.sec.master
    && Mirrored(a.sec.slices, b.sec.slices)
    && a.en.mac == a.sec.slices.wMac && a.en.key == a.sec.slices.wKey && a.en.iv == a.sec.slices.wIv
    && b.en.mac == b.sec.slices.wMac && b.en.key == b.sec.slices.wKey && b.en.iv == b.sec.slices.wIv
    && |a.en.counter| == 8 && Number(a.en.counter) == 1
    && |b.en.counter| == 8 && Number(b.en.counter) == 1
  }

  lemma ClosedHalfGives(c: Crypto, w: Sess)
    requires !w.cipher.NullSuite?
    ensures var h := ClosedHalf(c, w);
            h.suite == w.cipher && h.mac == w.sec.slices.wMac && h.key == w.sec.slices.wKey && h.iv == w.sec.slices.wIv
            && |h.counter| == 8 && Number(h.counter) == 1
  {
    FreshCounter(c, w.cipher, w.sec.slices.wMac, w.sec.slices.wKey, w.sec.slices.wIv);
    NextIsSuccessor(Repeat(0, 8));
    SmallModulus(1, Power(8));
    hide Fragment, Number, Next, Header;
  }

  lemma ClosingEstablishes(c: Crypto, a: Sess, b: Sess)
    requires Sound(c) && ReadyToClose(a, b)
    ensures var b1 := ClosedReader(c, a, b);
            var a1 := ClosedWriter(c, a);
            Established(ClosedReader(c, b1, a1), ClosedWriter(c, b1), a.cipher)
  {
    var b1 := ClosedReader(c, a, b);
    ClosedHalfGives(c, a);
    ClosedHalfGives(c, b1);
    hide Sound, ClosedHalf, FinishedData, Number;
  }
}
