/** One record across the channel: what the writer puts out, and what one pass of the reader's
    decoder makes of it. */
module SslPasses {
  import opened Bytes
  import opened SslCrypto
  import opened SslRecord
  import opened SslState
  import opened SslHandshake
  import opened SslFlight
  import opened SslDecode
  import opened SslStream

  ghost predicate PlainWriter(s: Sess) {
    s.en == PLAIN && !s.flags.writeSecure && s.ver.maj == 3 && s.ver.min == 0
  }

  ghost predicate PlainReader(s: Sess) {
    s.de == PLAIN && !s.flags.readSecure && (AsReader(s).checkVersion ==> s.ver.maj == 3 && s.ver.min == 0)
  }

  // Without protection a record is its header and its data, and sealing changes nothing.
  function Bare(typ: byte, data: Octets): Octets {
    Header(typ, 3, 0, |data|) + data
  }

  lemma PlainSeal(c: Crypto, typ: byte, data: Octets)
    ensures Fragment(c, PLAIN, typ, data) == data
    ensures Seal(c, PLAIN, typ, 3, 0, data) == (PLAIN, Bare(typ, data))
    ensures Overhead(NullSuite, |data|) == 0
  {
    hide Header;
    assert data + [] + [] == data;
  }

  lemma PlainWrite(c: Crypto, w: Sess, typ: byte, data: Octets, free: int)
    requires PlainWriter(w) && HEADER + |data| <= free
    ensures WriteRecord(c, w, typ, data, free)
         == Wrote(if typ == HANDSHAKE then Hash(w, data) else w, Bare(typ, data))
    ensures |Bare(typ, data)| == HEADER + |data|
  {
    PlainSeal(c, typ, data);
    hide Seal, Overhead;
  }

  // The reader meets the record at the front of its input.
  lemma PlainPass(c: Crypto, env: Env, r: Sess, typ: byte, data: Octets, rest: Octets, free: nat)
    requires Sound(c) && PlainReader(r) && ValidType(typ) && 0 < |data| < 0x10000 <= free
    ensures Step(c, env, r, Bare(typ, data) + rest, free)
         == Handle(c, env, r, Rec(typ, 3, 0, |data|), data, HEADER + |data|, free)
  {
    PlainSeal(c, typ, data);
    OpenSeal(c, PLAIN, typ, 3, 0, data, AsReader(r), rest, free);
    assert |Bare(typ, data)| == HEADER + |data|;
    hide Sound, Open, Handle, Header, Seal;
    assert r.(de := PLAIN) == r;
  }

  // The same for a protected record in step with the reader.
  lemma SecurePass(c: Crypto, env: Env, w: Half, r: Sess, typ: byte, data: Octets, rest: Octets, free: nat)
    requires Sound(c) && InStep(w, AsReader(r), 3, 0) && ValidType(typ) && 0 < |data| < 0xFF00 && 0x10000 <= free
    ensures var (h, wire) := Seal(c, w, typ, 3, 0, data);
            Step(c, env, r, wire + rest, free)
            == Handle(c, env, r.(de := h), Rec(typ, 3, 0, |Fragment(c, w, typ, data)|), data, |wire|, free)
  {
    FragmentLength(c, w, typ, data);
    OpenSeal(c, w, typ, 3, 0, data, AsReader(r), rest, free);
    SealLength(c, w, typ, 3, 0, data);
    hide Sound, Open, Handle, Seal, Fragment, Overhead;
  }

  // A record with one message, parsed to its end.
  lemma OneMessage(c: Crypto, env: Env, s: Sess, t: byte, body: Octets)
    requires Sound(c) && |body| < 0x1000000 && Arrive(s, t).Some?
    ensures var data := HandshakeData(t, body);
            var s1 := Arrive(s, t).value;
            var expected := FinishedHash(c, s1.sec.transcript, s1.sec.master, !s1.flags.server);
            var p := Body(c, env, Hash(s1, data), expected, 3, |body|, body);
            p.Accepted? && p.used == |body| ==> Messages(c, env, s, 3, data, data) == Accepted(p.s, |data|, p.respond)
  {
    var data := HandshakeData(t, body);
    var s1 := Arrive(s, t).value;
    assert data[1..] == Be3(|body|) + body;
    GetBe3(|body|, body);
    SmallModulus(|body|, 0x1000000);
    assert data[..4 + |body|] == data && data[4..] == body && data[0] == t;
    hide Sound, FinishedHash, Body, Get3, HandshakeData, Arrive, Hash;
    assert |data| == 4 + |body| && data != [];
  }

  // What the decoder does with a record of one accepted message.
  lemma OneMessageHandled(c: Crypto, env: Env, s: Sess, len: nat, t: byte, body: Octets, used: nat, free: nat)
    requires Sound(c) && |body| < 0x1000000 && Arrive(s, t).Some?
    ensures var data := HandshakeData(t, body);
            var s1 := Arrive(s, t).value;
            var expected := FinishedHash(c, s1.sec.transcript, s1.sec.master, !s1.flags.server);
            var p := Body(c, env, Hash(s1, data), expected, 3, |body|, body);
            p.Accepted? && p.used == |body| ==>
              Handle(c, env, s, Rec(HANDSHAKE, 3, 0, len), data, used, free)
              == if p.respond then Answer(c, env, p.s, used, free) else Return(p.s, used, Success)
  {
    OneMessage(c, env, s, t, body);
    hide Sound, FinishedHash, Body, Arrive, Hash, Messages, Answer;
    assert HandshakeData(t, body) != [];
  }

  // A change of cipher: both ends switch to the keys they derived.
  lemma ChangePass(c: Crypto, env: Env, r: Sess, rest: Octets, free: nat)
    requires Sound(c) && PlainReader(r) && r.hsState == HS_FINISHED && 0x10000 <= free
    ensures Step(c, env, r, Bare(CHANGE_CIPHER_SPEC, [1]) + rest, free) == Loop(ActivateRead(c, r), HEADER + 1)
  {
    PlainPass(c, env, r, CHANGE_CIPHER_SPEC, [1], rest, free);
    hide Sound, Step, ActivateRead, Answer;
  }
}
