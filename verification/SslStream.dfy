/** A connection fed with input in pieces: how the pieces are cut makes no difference. */
module SslStream {
  import opened Bytes
  import opened SslCrypto
  import opened SslRecord
  import opened SslState
  import opened SslFlight
  import opened SslHandshake
  import opened SslDecode

  // Once a report other than progress or want of input comes up, the receive loop stops there.
  datatype Conn = Conn(s: Sess, pending: Octets, reports: seq<Report>, stopped: bool)

  // Calls the decoder until it wants more input or stops; delivers payloads and answers in order.
  function Drain(c: Crypto, env: Env, k: Conn, free: nat): Conn
    requires Sound(c)
    decreases |k.pending|, k.s.flags.needEncode
  {
    if k.stopped then k
    else
      DecodeProgress(c, env, k.s, k.pending, free);
      var (s1, used, report) := Decode(c, env, k.s, k.pending, free);
      var rest := k.pending[used..];
      if report.Partial? || (report.Success? && rest == []) then Conn(s1, rest, k.reports, false)
      else
        var reports := if report.Success? then k.reports else k.reports + [report];
        if Progress(report) then Drain(c, env, Conn(s1, rest, reports, false), free)
        else Conn(s1, rest, reports, true)
  }

  function Feed(c: Crypto, env: Env, k: Conn, input: Octets, free: nat): Conn
    requires Sound(c)
  {
    Drain(c, env, k.(pending := k.pending + input), free)
  }

  function FeedAll(c: Crypto, env: Env, k: Conn, pieces: seq<Octets>, free: nat): Conn
    requires Sound(c)
    decreases |pieces|
  {
    if pieces == [] then k else FeedAll(c, env, Feed(c, env, k, pieces[0], free), pieces[1..], free)
  }

  function Joined(pieces: seq<Octets>): Octets {
    if pieces == [] then [] else pieces[0] + Joined(pieces[1..])
  }

  // A call makes progress, or clears the deferred answer, or does not ask to go on.
  lemma {:induction false} DecodeProgress(c: Crypto, env: Env, s: Sess, b: Octets, free: nat)
    requires Sound(c)
    ensures var (s1, used, report) := Decode(c, env, s, b, free);
            Progress(report) && !(report.Success? && used == |b|) && used == 0
            ==> s.flags.needEncode && !s1.flags.needEncode
  {
    if s.flags.needEncode {
      AnswerClears(c, env, s.(flags := s.flags.(needEncode := false)), free);
    } else if !s.flags.error && !s.flags.closed {
      LoopProgress(c, env, s, b, free);
    }
    hide Answer, DecodeLoop;
  }

  lemma AnswerClears(c: Crypto, env: Env, s: Sess, free: nat)
    requires Sound(c)
    ensures var p := Answer(c, env, s, 0, free);
            p.Return? && (Progress(p.report) ==> p.s.flags.needEncode == s.flags.needEncode)
  {
    hide EncodeResponse, EncodeClientHello, Sound;
    ResponseKeeps(c, env, s, free);
    ClientHelloKeeps(c, env, s, s.cipher.Id(), free);
  }

  lemma {:induction false} LoopProgress(c: Crypto, env: Env, s: Sess, b: Octets, free: nat)
    requires Sound(c)
    ensures var (s1, used, report) := DecodeLoop(c, env, s, b, free);
            Progress(report) && !(report.Success? && used == |b|) ==> 0 < used
    decreases |b|
  {
    hide Step;
    StepUses(c, env, s, b, free);
    match Step(c, env, s, b, free)
    case Loop(s1, used) => LoopProgress(c, env, s1, b[used..], free);
    case _ =>
  }

  // ---------------------------------------------------------------------------
  // Cutting the input into pieces makes no difference
  // ---------------------------------------------------------------------------

  // Waiting for more input, as opposed to for more room.
  predicate Hungry(p: Pass) {
    p.Wait? && !p.report.NoRoom?
  }

  // A pass that does not want more input is unaffected by what follows the record.
  lemma StepIgnoresRest(c: Crypto, env: Env, s: Sess, b: Octets, rest: Octets, free: nat)
    requires Sound(c) && !Hungry(Step(c, env, s, b, free))
    ensures Step(c, env, s, b + rest, free) == Step(c, env, s, b, free)
  {
    hide Open, Handle, Answer, Sound;
    assert b != [];
    assert !Open(c, AsReader(s), b, free).Short?;
    OpenIgnoresRest(c, AsReader(s), b, rest, free);
    assert b + rest != [];
  }

  // Whether the passes of a call end with one that wants more input.
  function EndsHungry(c: Crypto, env: Env, s: Sess, b: Octets, free: nat): bool
    requires Sound(c)
    decreases |b|
  {
    StepUses(c, env, s, b, free);
    match Step(c, env, s, b, free)
    case Loop(s1, used) => EndsHungry(c, env, s1, b[used..], free)
    case p => Hungry(p)
  }

  function Shifted(n: nat, r: (Sess, nat, Report)): (Sess, nat, Report) {
    (r.0, n + r.1, r.2)
  }

  // More input continues a hungry call where it stopped and does not touch any other.
  lemma {:induction false} LoopExtends(c: Crypto, env: Env, s: Sess, a: Octets, b: Octets, free: nat)
    requires Sound(c)
    ensures var r := DecodeLoop(c, env, s, a, free);
            DecodeLoop(c, env, s, a + b, free)
            == if EndsHungry(c, env, s, a, free) then Shifted(r.1, DecodeLoop(c, env, r.0, a[r.1..] + b, free)) else r
    decreases |a|
  {
    hide Step;
    StepUses(c, env, s, a, free);
    var p := Step(c, env, s, a, free);
    if Hungry(p) {
      assert a[0..] + b == a + b;
    } else {
      StepIgnoresRest(c, env, s, a, b, free);
      StepUses(c, env, s, a + b, free);
      if p.Loop? {
        LoopExtends(c, env, p.s, a[p.used..], b, free);
        assert (a + b)[p.used..] == a[p.used..] + b;
        var r := DecodeLoop(c, env, p.s, a[p.used..], free);
        assert a[p.used..][r.1..] == a[p.used + r.1..];
      }
    }
  }

  predicate Usable(s: Sess) {
    !s.flags.error && !s.flags.closed && !s.flags.needEncode
  }

  // What a call reports when it ends hungry, and that it leaves the session usable.
  lemma {:induction false} HungryReports(c: Crypto, env: Env, s: Sess, b: Octets, free: nat)
    requires Sound(c) && Usable(s)
    ensures var (s1, used, report) := DecodeLoop(c, env, s, b, free);
            if EndsHungry(c, env, s, b, free) then
              Usable(s1) && (report.Partial? || (report.Success? && used == |b|))
            else !report.Partial? && (report.Success? ==> Usable(s1))
    decreases |b|
  {
    StepUses(c, env, s, b, free);
    StepKeepsUsable(c, env, s, b, free);
    hide Step;
    match Step(c, env, s, b, free)
    case Loop(s1, used) => HungryReports(c, env, s1, b[used..], free);
    case _ =>
  }

  lemma AnswerIsNoWait(c: Crypto, env: Env, s: Sess, used: nat, free: nat)
    requires Sound(c)
    ensures var p := Answer(c, env, s, used, free);
            p.Return? && !p.report.Partial? && !p.report.Success?
  {
    hide EncodeResponse, EncodeClientHello;
  }

  lemma HandleKeepsUsable(c: Crypto, env: Env, s: Sess, rec: Rec, data: Octets, used: nat, free: nat)
    requires Sound(c) && Usable(s)
    ensures var p := Handle(c, env, s, rec, data, used, free);
            !p.Wait? && (p.Loop? ==> Usable(p.s))
            && (p.Return? ==> !p.report.Partial? && (p.report.Success? ==> Usable(p.s)))
  {
    hide Answer, Messages, Activate, Sound;
    forall s1: Sess, u: nat
      ensures var p := Answer(c, env, s1, u, free); p.Return? && !p.report.Partial? && !p.report.Success?
    {
      AnswerIsNoWait(c, env, s1, u, free);
    }
    if rec.typ == HANDSHAKE && data != [] {
      MessagesFramed(c, env, s, rec.maj, data, data);
    }
  }

  lemma StepKeepsUsable(c: Crypto, env: Env, s: Sess, b: Octets, free: nat)
    requires Sound(c) && Usable(s)
    ensures var p := Step(c, env, s, b, free);
            (p.Wait? ==> p.report.Partial? || p.report.NoRoom? || (p.report.Success? && b == []))
            && (p.Loop? ==> Usable(p.s)) && (p.Return? ==> !p.report.Partial?)
            && (p.Return? && p.report.Success? ==> Usable(p.s))
  {
    hide Open, Handle, Answer, Sound;
    match Open(c, AsReader(s), b, free)
    case Bad(alert, half, _) => AnswerIsNoWait(c, env, Fail(s, alert).(de := half), 0, free);
    case Plain(rec, data, half, used) => HandleKeepsUsable(c, env, s.(de := half), rec, data, used, free);
    case _ =>
  }

  lemma DrainOnce(c: Crypto, env: Env, k: Conn, free: nat)
    requires Sound(c) && !k.stopped
    ensures var (s1, used, report) := Decode(c, env, k.s, k.pending, free);
            var rest := k.pending[used..];
            var reports := if report.Success? then k.reports else k.reports + [report];
            Drain(c, env, k, free)
            == if report.Partial? || (report.Success? && rest == []) then Conn(s1, rest, k.reports, false)
               else if Progress(report) then Drain(c, env, Conn(s1, rest, reports, false), free)
               else Conn(s1, rest, reports, true)
  {
    hide Decode;
  }

  lemma DrainStopped(c: Crypto, env: Env, k: Conn, free: nat)
    requires Sound(c) && k.stopped
    ensures Drain(c, env, k, free) == k
  {
  }

  // Draining what has arrived, then the rest, is draining everything at once.
  lemma {:induction false} DrainExtends(c: Crypto, env: Env, k: Conn, b: Octets, free: nat)
    requires Sound(c)
    ensures var k1 := Drain(c, env, k, free);
            Drain(c, env, k.(pending := k.pending + b), free) == Drain(c, env, k1.(pending := k1.pending + b), free)
    decreases |k.pending|, k.s.flags.needEncode
  {
    hide Drain, Decode, EndsHungry, Usable;
    var a := k.pending;
    if k.stopped {
      DrainStopped(c, env, k, free);
    } else if Usable(k.s) && EndsHungry(c, env, k.s, a, free) {
      HungryDrain(c, env, k, b, free);
    } else {
      DrainOnce(c, env, k, free);
      DrainOnce(c, env, k.(pending := a + b), free);
      DecodeProgress(c, env, k.s, a, free);
      CompleteCall(c, env, k.s, a, b, free);
      var (s1, used, report) := Decode(c, env, k.s, a, free);
      var k1 := Conn(s1, a[used..], if report.Success? then k.reports else k.reports + [report], false);
      assert (a + b)[used..] == a[used..] + b;
      if report.Success? && a[used..] == [] {
        EmptyDrain(c, env, s1, k.reports, free);
        assert [] + b == b;
      } else if Progress(report) {
        DrainExtends(c, env, k1, b, free);
      } else {
        DrainStopped(c, env, k1.(stopped := true, pending := a[used..] + b), free);
      }
    }
  }

  // A call that does not end hungry reports the same with more input behind it.
  lemma CompleteCall(c: Crypto, env: Env, s: Sess, a: Octets, b: Octets, free: nat)
    requires Sound(c) && !(Usable(s) && EndsHungry(c, env, s, a, free))
    ensures Decode(c, env, s, a + b, free) == Decode(c, env, s, a, free)
    ensures var r := Decode(c, env, s, a, free); !r.2.Partial? && (r.2.Success? ==> Usable(r.0))
  {
    hide DecodeLoop, Answer;
    if Usable(s) {
      LoopExtends(c, env, s, a, b, free);
      HungryReports(c, env, s, a, free);
    } else if !s.flags.error && !s.flags.closed {
      AnswerIsNoWait(c, env, s.(flags := s.flags.(needEncode := false)), 0, free);
    }
  }

  // A call that ends hungry is continued by a call on what it left and what comes next.
  lemma HungryCall(c: Crypto, env: Env, s: Sess, a: Octets, b: Octets, free: nat)
    requires Sound(c) && Usable(s) && EndsHungry(c, env, s, a, free)
    ensures var (s1, used, report) := Decode(c, env, s, a, free);
            (report.Partial? || (report.Success? && used == |a|))
            && Decode(c, env, s, a + b, free) == Shifted(used, Decode(c, env, s1, a[used..] + b, free))
  {
    hide DecodeLoop, EndsHungry;
    LoopExtends(c, env, s, a, b, free);
    HungryReports(c, env, s, a, free);
  }

  lemma HungryDrain(c: Crypto, env: Env, k: Conn, b: Octets, free: nat)
    requires Sound(c) && !k.stopped && Usable(k.s) && EndsHungry(c, env, k.s, k.pending, free)
    ensures var k1 := Drain(c, env, k, free);
            Drain(c, env, k.(pending := k.pending + b), free) == Drain(c, env, k1.(pending := k1.pending + b), free)
  {
    hide Drain, Decode, EndsHungry, Usable;
    var a := k.pending;
    HungryCall(c, env, k.s, a, b, free);
    DrainOnce(c, env, k, free);
    var (s1, used, report) := Decode(c, env, k.s, a, free);
    var k1 := Conn(s1, a[used..], k.reports, false);
    DrainOnce(c, env, k.(pending := a + b), free);
    DrainOnce(c, env, k1.(pending := k1.pending + b), free);
    var r := Decode(c, env, s1, a[used..] + b, free);
    assert (a + b)[used + r.1..] == (a[used..] + b)[r.1..];
  }

  lemma EmptyDrain(c: Crypto, env: Env, s: Sess, reports: seq<Report>, free: nat)
    requires Sound(c) && Usable(s)
    ensures Drain(c, env, Conn(s, [], reports, false), free) == Conn(s, [], reports, false)
  {
    DrainOnce(c, env, Conn(s, [], reports, false), free);
    assert DecodeLoop(c, env, s, [], free) == (s, 0, Success);
  }

  // One pass at a time: what a pass eats is gone, and what it reports is reported.
  function AfterPass(k: Conn, p: Pass): Conn
    requires (p.Loop? || p.Return?) && p.used <= |k.pending|
  {
    var reports := if p.Return? && !p.report.Success? then k.reports + [p.report] else k.reports;
    Conn(p.s, k.pending[p.used..], reports, false)
  }

  lemma DrainPass(c: Crypto, env: Env, k: Conn, free: nat)
    requires Sound(c) && !k.stopped && Usable(k.s)
    requires var p := Step(c, env, k.s, k.pending, free); p.Loop? || (p.Return? && Progress(p.report))
    ensures var p := Step(c, env, k.s, k.pending, free);
            p.used <= |k.pending|
                && (p.Loop? || Usable(p.s) ==> Drain(c, env, k, free) == Drain(c, env, AfterPass(k, p), free))
  {
    hide Step, Drain;
    var p := Step(c, env, k.s, k.pending, free);
    StepUses(c, env, k.s, k.pending, free);
    StepKeepsUsable(c, env, k.s, k.pending, free);
    DrainOnce(c, env, k, free);
    if p.Loop? {
      DrainOnce(c, env, AfterPass(k, p), free);
      var r := DecodeLoop(c, env, p.s, k.pending[p.used..], free);
      assert k.pending[p.used..][r.1..] == k.pending[p.used + r.1..];
    } else if Usable(p.s) && p.report.Success? && k.pending[p.used..] == [] {
      EmptyDrain(c, env, p.s, k.reports, free);
    }
  }

  // The connection has taken in all it can.
  ghost predicate Quiescent(c: Crypto, env: Env, k: Conn, free: nat)
    requires Sound(c)
  {
    Drain(c, env, k, free) == k
  }

  lemma FeedIsQuiescent(c: Crypto, env: Env, k: Conn, input: Octets, free: nat)
    requires Sound(c)
    ensures Quiescent(c, env, Feed(c, env, k, input, free), free)
  {
    var k1 := k.(pending := k.pending + input);
    hide Drain;
    DrainExtends(c, env, k1, [], free);
    assert k1.pending + [] == k1.pending;
    var k2 := Drain(c, env, k1, free);
    assert k2.pending + [] == k2.pending;
  }

  // However the input is cut into pieces, the connection ends in the same state having reported
  // the same payloads and answers.
  lemma {:induction false} ChunkingIndependence(c: Crypto, env: Env, k: Conn, pieces: seq<Octets>, free: nat)
    requires Sound(c) && Quiescent(c, env, k, free)
    ensures FeedAll(c, env, k, pieces, free) == Feed(c, env, k, Joined(pieces), free)
    decreases |pieces|
  {
    hide Drain;
    if pieces == [] {
      assert k.pending + [] == k.pending;
    } else {
      var rest := Joined(pieces[1..]);
      FeedIsQuiescent(c, env, k, pieces[0], free);
      ChunkingIndependence(c, env, Feed(c, env, k, pieces[0], free), pieces[1..], free);
      DrainExtends(c, env, k.(pending := k.pending + pieces[0]), rest, free);
      assert k.pending + (pieces[0] + rest) == (k.pending + pieces[0]) + rest;
    }
  }
}
