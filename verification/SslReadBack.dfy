/** Each handshake message, as one end writes it and the other end parses it. */
module SslReadBack {
  import opened Bytes
  import opened SslCrypto
  import opened SslRecord
  import opened SslState
  import opened SslHandshake
  import opened SslFlight

  // ---------------------------------------------------------------------------
  // ClientHello
  // ---------------------------------------------------------------------------

  lemma HelloSessionRead(env: Env, s: Sess, random: Octets, id: Octets, rest: Octets)
    requires |random| == RANDOM_SIZE && |id| <= SESSION_ID_SIZE
    ensures HelloSession(env, s, random + [|id|] + id + rest)
         == Accepted(LookupSession(env, s.(sec := s.sec.(clientRandom := random)), id), RANDOM_SIZE + 1 + |id|, false)
    ensures (random + [|id|] + id + rest)[RANDOM_SIZE + 1 + |id|..] == rest
  {
    var b := random + [|id|] + id + rest;
    assert b[..RANDOM_SIZE] == random && b[RANDOM_SIZE] == |id|;
    assert b[RANDOM_SIZE + 1..RANDOM_SIZE + 1 + |id|] == id;
    assert b[RANDOM_SIZE + 1 + |id|..] == rest;
    hide LookupSession;
  }

  lemma HelloSuitesRead(s: Sess, list: Octets, rest: Octets)
    requires 0 < |list| < 0x10000 && |list| % 2 == 0
    requires PickSuite(s, list).Some?
    ensures HelloSuites(s, Be2(|list|) + list + rest)
            == Accepted(s.(cipher := PickSuite(s, list).value), 2 + |list|, false)
    ensures (Be2(|list|) + list + rest)[2 + |list|..] == rest
  {
    var b := Be2(|list|) + list + rest;
    assert b == Be2(|list|) + (list + rest);
    GetBe2(|list|, list + rest);
    assert b[2..2 + |list|] == list && b[2 + |list|..] == rest;
    hide PickSuite;
  }

  lemma ClientHelloRead(env: Env, s: Sess, w: Sess, list: Octets)
    requires w.ver.maj == 3 && w.ver.min == 0 && |w.sec.clientRandom| == RANDOM_SIZE && w.sid.len <= SESSION_ID_SIZE
    requires 0 < |list| < 0x10000 && |list| % 2 == 0
    ensures var body := ClientHelloBody(w, Be2(|list|) + list);
            var s1 := s.(ver := Ver(3, 0, 3, 0), sec := s.sec.(clientRandom := w.sec.clientRandom));
            var s2 := LookupSession(env, s1, w.sid.id[..w.sid.len]);
            var suite := PickSuite(s2, list);
            suite.Some? ==> ClientHello(env, s, 3, body)
                            == Accepted(s2.(cipher := suite.value,
                                            hsState := if s2.flags.resumed then HS_FINISHED
                                                else HS_CLIENT_KEY_EXCHANGE), |body|, true)
  {
    var id := w.sid.id[..w.sid.len];
    var body := ClientHelloBody(w, Be2(|list|) + list);
    var s1 := s.(ver := Ver(3, 0, 3, 0), sec := s.sec.(clientRandom := w.sec.clientRandom));
    var s2 := LookupSession(env, s1, id);
    LookupKeeps(env, s1, id);
    assert body[..2] == [3, 0];
    var b := body[2..];
    var tail: Octets := [1, 0];
    assert b == w.sec.clientRandom + [|id|] + id + (Be2(|list|) + list + tail);
    var s0 := s.(ver := Ver(3, 0, 3, 0));
    HelloSessionRead(env, s0, w.sec.clientRandom, id, Be2(|list|) + list + tail);
    if PickSuite(s2, list).Some? {
      HelloSuitesRead(s2, list, tail);
      assert b[RANDOM_SIZE + 1 + |id| + (2 + |list|)..] == tail;
      hide LookupSession, HelloSession, HelloSuites, PickSuite, Be2;
    }
  }

  lemma LookupKeeps(env: Env, s: Sess, id: Octets)
    requires |id| <= SESSION_ID_SIZE
    ensures var t := LookupSession(env, s, id);
            t.ver == s.ver && t.err == s.err && t.hsState == s.hsState && t.sec.clientRandom == s.sec.clientRandom
            && t.sec.transcript == s.sec.transcript && t.en == s.en && t.de == s.de
            && (id == [] ==> !t.flags.resumed && t.sid.len == 0 && t.sid.id == s.sid.id)
    ensures var t := LookupSession(env, s, id);
            Framed(s, t)
  {
    hide Repeat;
  }

  // The suite lists a client sends, and what the server picks from them.
  function Offer(spec: nat): Octets {
    if spec == 0 then Be2(0x000A) + Be2(0x0005) + Be2(0x0004) else Be2(spec)
  }

  function Agreed(spec: nat): Suite
    requires spec == 0 || GetCipherSpec(spec).Some?
  {
    if spec == 0 then TripleDesSha else GetCipherSpec(spec).value
  }

  lemma OfferPicked(s: Sess, spec: nat)
    requires spec == 0 || GetCipherSpec(spec).Some?
    ensures 0 < |Offer(spec)| <= 6 && |Offer(spec)| % 2 == 0
    ensures (if spec == 0 then CipherSpecList() else Be2(2) + Be2(spec)) == Be2(|Offer(spec)|) + Offer(spec)
    ensures !s.flags.resumed ==> PickSuite(s, Offer(spec)) == Some(Agreed(spec))
    ensures s.flags.resumed && spec == s.cipher.Id() != 0 ==> PickSuite(s, Offer(spec)) == Some(s.cipher)
    ensures !Agreed(spec).NullSuite?
  {
    var list := Offer(spec);
    assert Get2(list) == if spec == 0 then 0x000A else spec by {
      if spec == 0 {
        assert list == Be2(0x000A) + (Be2(0x0005) + Be2(0x0004));
        GetBe2(0x000A, Be2(0x0005) + Be2(0x0004));
      } else {
        assert list == Be2(spec) + [];
        GetBe2(spec, []);
      }
    }
  }

  // ---------------------------------------------------------------------------
  // ServerHello
  // ---------------------------------------------------------------------------

  lemma ServerHelloRead(c: Crypto, s: Sess, w: Sess)
    requires Sound(c) && w.ver.maj == 3 && w.ver.min == 0 && s.ver.maj == 3
    requires |w.sec.serverRandom| == RANDOM_SIZE && w.sid.len <= SESSION_ID_SIZE
    ensures var id := w.sid.id[..w.sid.len];
            var s1 := s.(ver := s.ver.(reqMaj := 3, reqMin := 0), sec := s.sec.(serverRandom := w.sec.serverRandom));
            ServerHello(c, s, ServerHelloBody(w))
                == ServerHelloSuite(c, AdoptSession(s1, id), Be2(w.cipher.Id()) + [0], 35 + |id|)
    ensures |ServerHelloBody(w)| == 38 + w.sid.len
  {
    var id := w.sid.id[..w.sid.len];
    var body := ServerHelloBody(w);
    assert body[0] == 3 && body[1] == 0;
    assert body[2..34] == w.sec.serverRandom && body[34] == |id|;
    assert body[35..35 + |id|] == id;
    assert body[35 + |id|..] == Be2(w.cipher.Id()) + [0];
    hide ServerHelloSuite, AdoptSession, ServerHelloBody;
  }

  lemma SuiteRead(c: Crypto, s: Sess, suite: Suite, at: nat)
    requires Sound(c) && (s.flags.resumed ==> s.cipher == suite)
    ensures ServerHelloSuite(c, s, Be2(suite.Id()) + [0], at)
         == if s.flags.resumed then Accepted(DeriveKeys(c, s).(hsState := HS_FINISHED), at + 3, false)
            else Accepted(s.(cipher := suite, hsState := HS_CERTIFICATE), at + 3, false)
  {
    GetBe2(suite.Id(), [0]);
    hide DeriveKeys;
  }

  // ---------------------------------------------------------------------------
  // Certificate
  // ---------------------------------------------------------------------------

  // The client can parse every certificate of the chain and accepts the chain, whose first
  // certificate holds the key.
  ghost predicate Presents(env: Env, certs: seq<Octets>, pub: PubKey) {
    && certs != [] && [] !in certs
    && (forall cert :: cert in certs ==> env.parseCert(cert).Some? && env.parseCert(cert).value.1 == |cert|)
    && env.parseCert(certs[0]).value.0 == pub
    && env.acceptChain(certs)
  }

  ghost predicate Parses(env: Env, certs: seq<Octets>) {
    forall i :: 0 <= i < |certs| ==>
          env.parseCert(certs[i]).Some? && env.parseCert(certs[i]).value.1 == |certs[i]| < 0x1000000
  }

  function Keys(env: Env, certs: seq<Octets>): seq<PubKey> {
    if certs == [] then [] else
      var parsed := env.parseCert(certs[0]);
      (if parsed.Some? then [parsed.value.0] else []) + Keys(env, certs[1..])
  }

  lemma EntryRead(cert: Octets, rest: Octets)
    requires |cert| < 0x1000000
    ensures var b := Be3(|cert|) + cert + rest;
            Get3(b) == |cert| && b[3..3 + |cert|] == cert && b[3 + |cert|..] == rest
  {
    assert Be3(|cert|) + cert + rest == Be3(|cert|) + (cert + rest);
    GetBe3(|cert|, cert + rest);
    SmallModulus(|cert|, 0x1000000);
    hide Get3, Be3;
  }

  // One certificate of the walk.
  lemma WalkStep(env: Env, left: nat, cert: Octets, rest: Octets)
    requires left > 0 && |cert| < 0x1000000
    requires env.parseCert(cert).Some? && env.parseCert(cert).value.1 == |cert|
    ensures var next := WalkChain(env, left - (|cert| + 3), rest);
            WalkChain(env, left, Be3(|cert|) + cert + rest)
            == if next.Broken? then next
               else Walk([cert] + next.certs, [env.parseCert(cert).value.0] + next.keys, 3 + |cert| + next.used)
  {
    hide Get3, Be3;
    EntryRead(cert, rest);
  }

  lemma WalkNothing(env: Env)
    ensures WalkChain(env, 0, []) == Walk([], [], 0)
  {
  }

  lemma {:induction false} WalkEntries(env: Env, certs: seq<Octets>)
    requires Parses(env, certs)
    ensures WalkChain(env, TotalLength(certs) + 3 * |certs|, CertificateEntries(certs))
         == Walk(certs, Keys(env, certs), |CertificateEntries(certs)|)
    decreases |certs|
  {
    hide Be3, WalkChain;
    if certs == [] {
      WalkNothing(env);
    } else {
      WalkStep(env, TotalLength(certs) + 3 * |certs|, certs[0], CertificateEntries(certs[1..]));
      WalkEntries(env, certs[1..]);
      assert [certs[0]] + certs[1..] == certs;
    }
  }

  lemma {:induction false} PartOfTotal(certs: seq<Octets>)
    ensures forall cert :: cert in certs ==> |cert| <= TotalLength(certs)
    ensures certs != [] && [] !in certs ==> TotalLength(certs) > 0
  {
    if certs != [] {
      PartOfTotal(certs[1..]);
      forall cert | cert in certs ensures |cert| <= TotalLength(certs) {
        if cert != certs[0] {
          assert cert in certs[1..];
        }
      }
    }
  }

  lemma CertificateRead(env: Env, s: Sess, certs: seq<Octets>, pub: PubKey)
    requires Presents(env, certs, pub) && TotalLength(certs) + 3 * |certs| < 0x1000000
    ensures Certificate(env, s, CertificateBody(certs))
         == Accepted(s.(hsState := HS_SERVER_HELLO_DONE, sec := s.sec.(cert := Some(pub))), |CertificateBody(certs)|,
                     false)
  {
    hide WalkChain, CertificateEntries, TotalLength, Get3, Be3;
    var n := TotalLength(certs) + 3 * |certs|;
    var entries := CertificateEntries(certs);
    PartOfTotal(certs);
    EntriesLength(certs);
    GetBe3(n, entries);
    SmallModulus(n, 0x1000000);
    assert (Be3(n) + entries)[3..] == entries;
    assert certs[0] in certs;
    WalkEntries(env, certs);
    assert Keys(env, certs)[0] == pub;
  }

  // ---------------------------------------------------------------------------
  // ClientKeyExchange
  // ---------------------------------------------------------------------------

  lemma KeyExchangeRead(c: Crypto, env: Env, s: Sess, pub: PubKey, secret: Octets)
    requires Sound(c) && KeyPair(c, pub, env.priv) && |secret| == PREMASTER_SIZE
    requires secret[0] == s.ver.reqMaj && secret[1] == s.ver.reqMin
    ensures ClientKeyExchange(c, env, s, pub.size, c.encPub(pub, secret))
         == Accepted(DeriveKeys(c, s.(sec := s.sec.(premaster := secret))).(hsState := HS_FINISHED), pub.size, false)
  {
    var b := c.encPub(pub, secret);
    assert |b| == pub.size && b[..pub.size] == b;
    hide DeriveKeys;
  }

  // ---------------------------------------------------------------------------
  // Finished, and the keys both ends derive
  // ---------------------------------------------------------------------------

  lemma FinishedRead(s: Sess, hash: Octets)
    requires |hash| == FINISHED_SIZE && s.flags.readSecure
    ensures Finished(s, hash, FINISHED_SIZE, hash)
         == Accepted(s.(hsState := HS_DONE, sec := s.sec.(cert := None)), FINISHED_SIZE,
                     s.flags.server != s.flags.resumed)
  {
    assert hash[..FINISHED_SIZE] == hash;
  }

  lemma DeriveKeysGives(c: Crypto, s: Sess)
    requires Sound(c)
    ensures var t := DeriveKeys(c, s);
            && t.sec.master == (if s.flags.resumed then s.sec.master
                                else MasterSecret(c, s.sec.premaster, s.sec.clientRandom, s.sec.serverRandom))
            && (ExpandLength(c, t.sec.master, s.sec.serverRandom, s.sec.clientRandom, KeyRounds(s.cipher));
                t.sec.slices == Slice(s.cipher,
                                      KeyBlock(c, s.cipher, t.sec.master, s.sec.clientRandom, s.sec.serverRandom),
                                          s.flags.server))
            && t.sec.clientRandom == s.sec.clientRandom && t.sec.serverRandom == s.sec.serverRandom
            && t.sec.transcript == s.sec.transcript && t.sec.cert == s.sec.cert
            && t.flags == s.flags && t.hsState == s.hsState && t.err == s.err && t.ignored == s.ignored
               && t.ver == s.ver
            && t.sid == s.sid && t.cipher == s.cipher && t.en == s.en && t.de == s.de && t.draws == s.draws
  {
    hide Sound, KeyBlock, Slice, MasterSecret;
  }

  // The same suite, master secret and randoms at the two ends give mirrored keys.
  ghost predicate Mirrored(a: Slices, b: Slices) {
    && a.wMac == b.rMac && a.rMac == b.wMac && a.wKey == b.rKey && a.rKey == b.wKey
    && a.wIv == b.rIv && a.rIv == b.wIv
  }

  lemma DerivedMirror(c: Crypto, client: Sess, server: Sess)
    requires Sound(c) && !client.flags.server && server.flags.server && client.flags.resumed == server.flags.resumed
    requires client.cipher == server.cipher
    requires client.sec.clientRandom == server.sec.clientRandom && client.sec.serverRandom == server.sec.serverRandom
    requires if client.flags.resumed then client.sec.master == server.sec.master
             else client.sec.premaster == server.sec.premaster
    ensures DeriveKeys(c, client).sec.master == DeriveKeys(c, server).sec.master
    ensures Mirrored(DeriveKeys(c, client).sec.slices, DeriveKeys(c, server).sec.slices)
  {
    DeriveKeysGives(c, client);
    DeriveKeysGives(c, server);
    var m := DeriveKeys(c, client).sec.master;
    ExpandLength(c, m, client.sec.serverRandom, client.sec.clientRandom, KeyRounds(client.cipher));
    SlicesMirror(client.cipher, KeyBlock(c, client.cipher, m, client.sec.clientRandom, client.sec.serverRandom));
    hide Sound, DeriveKeys, MasterSecret, Slice;
  }
}
