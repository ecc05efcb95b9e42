/** Application data between two sessions that have finished their handshake. */
module SslConversation {
  import opened Bytes
  import opened SslCrypto
  import opened SslRecord
  import opened SslState
  import opened SslHandshake
  import opened SslFlight
  import opened SslDecode
  import opened SslStream

  // Writer w and reader r hold the two ends of one direction of a finished connection.
  ghost predicate Linked(w: Sess, r: Sess) {
    && Usable(w) && w.hsState == HS_DONE
    && Usable(r) && r.hsState == HS_DONE && r.flags.readSecure
    && InStep(w.en, AsReader(r), w.ver.maj, w.ver.min)
  }

  function FragmentSize(suite: Suite, payload: Octets): nat {
    |payload| + Overhead(suite, |payload|)
  }

  // Every payload through the encoder, into a buffer that always has room.
  function EncodeAll(c: Crypto, w: Sess, payloads: seq<Octets>): (Sess, Octets)
    decreases |payloads|
  {
    if payloads == [] then (w, [])
    else
      var e := Encode(c, w, payloads[0], MAX_BUF + 64);
      var (w1, rest) := EncodeAll(c, e.s, payloads[1..]);
      (w1, e.out + rest)
  }

  // Empty payloads are legal on the wire and never delivered.
  function Deliveries(payloads: seq<Octets>): seq<Report> {
    if payloads == [] then []
    else (if payloads[0] == [] then [] else [Data(payloads[0])]) + Deliveries(payloads[1..])
  }

  function Empties(payloads: seq<Octets>): nat {
    if payloads == [] then 0 else (if payloads[0] == [] then 1 else 0) + Empties(payloads[1..])
  }

  lemma EncodeOne(c: Crypto, w: Sess, payload: Octets)
    requires Sound(c) && Usable(w) && w.hsState == HS_DONE && FragmentSize(w.en.suite, payload) < 0x10000
    ensures var (en, wire) := Seal(c, w.en, APPLICATION_DATA, w.ver.maj, w.ver.min, payload);
            Encode(c, w, payload, MAX_BUF + 64) == Wrote(w.(en := en), wire)
  {
    hide Seal, Sound, Overhead;
  }

  // One record, from the encoder through one pass of the decoder.
  lemma PassOverRecord(c: Crypto, env: Env, w: Sess, r: Sess, payload: Octets, rest: Octets, free: nat)
    requires Sound(c) && Linked(w, r) && FragmentSize(w.en.suite, payload) < 0x10000 <= free
    requires payload == [] ==> r.ignored < MAX_IGNORED
    ensures var e := Encode(c, w, payload, MAX_BUF + 64);
            e.Wrote? && Linked(e.s, r.(de := e.s.en))
            && Step(c, env, r, e.out + rest, free)
               == if payload == [] then Loop(r.(de := e.s.en, ignored := r.ignored + 1), |e.out|)
                  else Return(r.(de := e.s.en), |e.out|, Data(payload))
  {
    EncodeOne(c, w, payload);
    FragmentLength(c, w.en, APPLICATION_DATA, payload);
    SealLength(c, w.en, APPLICATION_DATA, w.ver.maj, w.ver.min, payload);
    SealKeepsSuite(c, w.en, APPLICATION_DATA, w.ver.maj, w.ver.min, payload);
    assert w.en.suite.MacSize() > 0;
    OpenSeal(c, w.en, APPLICATION_DATA, w.ver.maj, w.ver.min, payload, AsReader(r), rest, free);
    hide Sound, Open, Seal, Encode, Overhead, Fragment;
  }

  lemma SealKeepsSuite(c: Crypto, h: Half, typ: byte, maj: byte, min: byte, data: Octets)
    ensures Seal(c, h, typ, maj, min, data).0.suite == h.suite
    ensures Seal(c, h, typ, maj, min, data).0.counter == Tick(h)
  {
    hide Fragment, Encrypt, Header, Tick;
  }

  lemma LinkedUsable(w: Sess, r: Sess)
    requires Linked(w, r)
    ensures Usable(w) && w.hsState == HS_DONE && Usable(r) && r.de == w.en
    ensures forall n: nat :: Linked(w, r.(ignored := n))
  {
  }

  // Whole conversations: the reader delivers exactly the payloads sent, in order, and the two
  // ends stay in step.
  lemma {:induction false} Conversation(c: Crypto, env: Env, w: Sess, r: Sess, payloads: seq<Octets>,
                                        reports: seq<Report>, free: nat)
    requires Sound(c) && Linked(w, r) && 0x10000 <= free
    requires forall p :: p in payloads ==> FragmentSize(w.en.suite, p) < 0x10000
    requires r.ignored + Empties(payloads) <= MAX_IGNORED
    ensures var (w1, wire) := EncodeAll(c, w, payloads);
            var r1 := r.(de := w1.en, ignored := r.ignored + Empties(payloads));
            Drain(c, env, Conn(r, wire, reports, false), free) == Conn(r1, [], reports + Deliveries(payloads), false)
            && Linked(w1, r1)
    decreases |payloads|
  {
    hide Drain, Step, Encode, Sound, Linked, FragmentSize, Seal;
    if payloads == [] {
      LinkedUsable(w, r);
      EmptyDrain(c, env, r, reports, free);
      assert reports + [] == reports;
    } else {
      LinkedUsable(w, r);
      var p := payloads[0];
      var e := Encode(c, w, p, MAX_BUF + 64);
      var (w1, rest) := EncodeAll(c, e.s, payloads[1..]);
      PassOverRecord(c, env, w, r, p, rest, free);
      SealKeepsSuite(c, w.en, APPLICATION_DATA, w.ver.maj, w.ver.min, p);
      EncodeOne(c, w, p);
      var k := Conn(r, e.out + rest, reports, false);
      DrainPass(c, env, k, free);
      assert k.pending[|e.out|..] == rest;
      var r1 := r.(de := e.s.en, ignored := if p == [] then r.ignored + 1 else r.ignored);
      LinkedUsable(e.s, r.(de := e.s.en));
      var now := if p == [] then [] else [Data(p)];
      assert reports + [] == reports;
      assert AfterPass(k, Step(c, env, r, k.pending, free)) == Conn(r1, rest, reports + now, false);
      forall q | q in payloads[1..] ensures FragmentSize(e.s.en.suite, q) < 0x10000 { assert q in payloads; }
      Conversation(c, env, e.s, r1, payloads[1..], reports + now, free);
      assert (reports + now) + Deliveries(payloads[1..]) == reports + (now + Deliveries(payloads[1..]));
    }
  }

  // What an eight-byte counter reads after counting n from zero.
  function Counted(n: nat): nat {
    n % Power(8)
  }

  lemma CountedSum(a: nat, b: nat)
    ensures Counted(Counted(a) + b) == Counted(a + b)
  {
    ModulusSum(a, b, Power(8));
  }

  lemma EncodeCounts(c: Crypto, w: Sess, payload: Octets)
    requires Sound(c) && Usable(w) && w.hsState == HS_DONE && !w.en.suite.NullSuite? && |w.en.counter| == 8
    requires FragmentSize(w.en.suite, payload) < 0x10000
    ensures var w1 := Encode(c, w, payload, MAX_BUF + 64).s;
            Usable(w1) && w1.hsState == HS_DONE && w1.en.suite == w.en.suite && |w1.en.counter| == 8
            && Number(w1.en.counter) == Counted(Number(w.en.counter) + 1)
  {
    hide Encode, Sound, Number, Power, Seal, Next;
    EncodeOne(c, w, payload);
    SealKeepsSuite(c, w.en, APPLICATION_DATA, w.ver.maj, w.ver.min, payload);
    NextIsSuccessor(w.en.counter);
  }

  lemma CounterBound(counter: Octets)
    requires |counter| == 8
    ensures Counted(Number(counter)) == Number(counter)
  {
    NumberBound(counter);
    SmallModulus(Number(counter), Power(8));
  }

  // Both counters advance by one a record, modulo 2^64.
  lemma {:induction false} ConversationCounts(c: Crypto, w: Sess, payloads: seq<Octets>)
    requires Sound(c) && Usable(w) && w.hsState == HS_DONE && !w.en.suite.NullSuite? && |w.en.counter| == 8
    requires forall p :: p in payloads ==> FragmentSize(w.en.suite, p) < 0x10000
    ensures var w1 := EncodeAll(c, w, payloads).0;
            |w1.en.counter| == 8 && Number(w1.en.counter) == Counted(Number(w.en.counter) + |payloads|)
    decreases |payloads|
  {
    hide Encode, Sound, Number, FragmentSize, Usable, Counted;
    if payloads == [] {
      CounterBound(w.en.counter);
    } else {
      var w1 := Encode(c, w, payloads[0], MAX_BUF + 64).s;
      EncodeCounts(c, w, payloads[0]);
      ConversationCounts(c, w1, payloads[1..]);
      CountedSum(Number(w.en.counter) + 1, |payloads| - 1);
    }
  }

  // A direction starts at activation with a counter of zero.
  lemma FreshCounter(c: Crypto, suite: Suite, mac: Octets, key: Octets, iv: Octets)
    ensures Number(Activate(c, suite, mac, key, iv).counter) == 0
  {
    ZeroNumber(8);
  }

  lemma {:induction false} ZeroNumber(n: nat)
    ensures Number(Repeat(0, n)) == 0
  {
    if n > 0 {
      assert Repeat(0, n)[..n - 1] == Repeat(0, n - 1);
      ZeroNumber(n - 1);
    }
  }

  // The encoder accepts any payload up to MAX_BUF - HEADER bytes, but a record announces its
  // length in 16 bits: exactly the payloads whose fragment fits come through.
  lemma DeliveredExactly(c: Crypto, env: Env, w: Sess, r: Sess, payload: Octets, rest: Octets, free: nat)
    requires Sound(c) && Linked(w, r) && HEADER + |payload| <= MAX_BUF && 0x10000 <= free
    ensures var e := Encode(c, w, payload, MAX_BUF + 64);
            e.Wrote? &&
            (Step(c, env, r, e.out + rest, free) == Return(r.(de := e.s.en), |e.out|, Data(payload))
             <==> payload != [] && FragmentSize(w.en.suite, payload) < 0x10000)
  {
    var e := Encode(c, w, payload, MAX_BUF + 64);
    FragmentLength(c, w.en, APPLICATION_DATA, payload);
    SealLength(c, w.en, APPLICATION_DATA, w.ver.maj, w.ver.min, payload);
    if FragmentSize(w.en.suite, payload) >= 0x10000 {
      OpenTruncated(c, w.en, APPLICATION_DATA, w.ver.maj, w.ver.min, payload, AsReader(r), rest, free);
      LongPayloadLost(c, env, r, e.out + rest, payload, free);
    } else if payload != [] || r.ignored < MAX_IGNORED {
      PassOverRecord(c, env, w, r, payload, rest, free);
    } else {
      EmptyNotDelivered(c, env, r, e.out + rest, free);
    }
    hide Sound, Step, Seal, Overhead;
  }

  lemma LongPayloadLost(c: Crypto, env: Env, r: Sess, b: Octets, payload: Octets, free: nat)
    requires Sound(c) && b != []
    requires var o := Open(c, AsReader(r), b, free); o.Plain? ==> |o.data| < |payload|
    ensures var p := Step(c, env, r, b, free); !(p.Return? && p.report == Data(payload))
  {
    hide Open, Messages, ActivateRead, Answer;
    forall s: Sess, u: nat ensures var p := Answer(c, env, s, u, free); p.Return? && !p.report.Data? {
      AnswerIsNoData(c, env, s, u, free);
    }
  }

  lemma EmptyNotDelivered(c: Crypto, env: Env, r: Sess, b: Octets, free: nat)
    requires Sound(c)
    ensures var p := Step(c, env, r, b, free); !(p.Return? && p.report == Data([]))
  {
    hide Open, Messages, ActivateRead, Answer;
    forall s: Sess, u: nat ensures var p := Answer(c, env, s, u, free); p.Return? && !p.report.Data? {
      AnswerIsNoData(c, env, s, u, free);
    }
  }
}
