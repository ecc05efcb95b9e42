/** The options of a DHCPv6 message: how they are written and how they are read back. Options nest:
    an association holds addresses, which may hold a status. */
module DhcpOptions {
  import opened Bytes
  import opened DhcpLeases

  const CLIENTID := 1
  const SERVERID := 2
  const IA_NA := 3
  const IA_TA := 4
  const IADDR := 5
  const ORO := 6
  const PREFERENCE := 7
  const ELAPSED_TIME := 8
  const UNICAST := 12
  const STATUS_CODE := 13
  const RAPID_COMMIT := 14
  const DNS := 23
  const IA_PD := 25
  const IA_PD_PREFIX := 26

  const NOADDRAVAIL := 2
  const NOPREFIXAVAIL := 10

  const ANY: Octets := Repeat(0, IP_SIZE)

  datatype Mode = ClientMode | ServerMode

  // What a message carries. kind, iaid, renew, rebind and addrs are its one association.
  datatype OptInfo = OptInfo(
    clientId: Octets, serverId: Octets, elapsed: nat,
    rapid: bool, unicast: bool, tempAddrs: bool, serverAddr: Octets,
    kind: Kind, iaid: nat, renew: nat, rebind: nat, addrs: seq<Addr>,
    pref: nat, status: seq<nat>, wanted: seq<nat>, dns: seq<Octets>)

  const NO_OPTIONS := OptInfo([], [], 0, false, false, false, ANY, IaNa, 0, 0, 0, [], 0, [], [], [])

  // ---------------------------------------------------------------------------
  // Writing
  // ---------------------------------------------------------------------------

  datatype Opt = Opt(t: nat, v: Octets)

  // Type and length go out in 16 bits each; the value goes out whole.
  function Tlv(o: Opt): (b: Octets)
    ensures |b| == 4 + |o.v|
  {
    Be2(o.t) + Be2(|o.v|) + o.v
  }

  function Concat(opts: seq<Opt>): Octets {
    if opts == [] then [] else Tlv(opts[0]) + Concat(opts[1..])
  }

  function StatusInfo(status: nat): Octets {
    if status == UNDEFINED then [] else Tlv(Opt(STATUS_CODE, Be2(status)))
  }

  // An address with its lifetimes, or a prefix with its lifetimes and length; the status behind it
  // is part of the option.
  function AddrInfo(kind: Kind, a: Addr): Octets {
    if kind == IaPd then
      Tlv(Opt(IA_PD_PREFIX, Be4(a.prefer) + Be4(a.valid) + [a.plen % 256] + a.ip + StatusInfo(a.status)))
    else
      Tlv(Opt(IADDR, a.ip + Be4(a.prefer) + Be4(a.valid) + StatusInfo(a.status)))
  }

  function AddrInfos(kind: Kind, addrs: seq<Addr>): Octets {
    if addrs == [] then [] else AddrInfo(kind, addrs[0]) + AddrInfos(kind, addrs[1..])
  }

  function IaInfo(o: OptInfo): Octets {
    Be4(o.iaid) + (if o.kind == IaTa then [] else Be4(o.renew) + Be4(o.rebind))
  }

  function IaType(kind: Kind): nat {
    match kind case IaNa => IA_NA case IaTa => IA_TA case IaPd => IA_PD
  }

  // A server that has nothing to offer for an association says so in a status of the message.
  function Completed(mode: Mode, o: OptInfo): OptInfo {
    if o.iaid != 0 && o.addrs == [] && mode == ServerMode then
      o.(status := o.status + [if o.kind == IaPd then NOPREFIXAVAIL else NOADDRAVAIL])
    else o
  }

  function Numbers(ns: seq<nat>): Octets {
    if ns == [] then [] else Be2(ns[0]) + Numbers(ns[1..])
  }

  function Ips(ips: seq<Octets>): Octets {
    if ips == [] then [] else ips[0] + Ips(ips[1..])
  }

  function When(c: bool, t: nat, v: Octets): seq<Opt> {
    if c then [Opt(t, v)] else []
  }

  function Statuses(codes: seq<nat>): seq<Opt> {
    if codes == [] then [] else [Opt(STATUS_CODE, Be2(codes[0]))] + Statuses(codes[1..])
  }

  function Ids(mode: Mode, o: OptInfo): seq<Opt> {
    When(mode == ClientMode, ELAPSED_TIME, Be2(o.elapsed))
    + When(o.clientId != [], CLIENTID, o.clientId)
    + When(o.serverId != [], SERVERID, o.serverId)
  }

  function Front(mode: Mode, o: OptInfo): seq<Opt> {
    Ids(mode, o)
    + When(o.rapid, RAPID_COMMIT, [])
    + When(mode == ServerMode && o.unicast && o.serverAddr != ANY, UNICAST, o.serverAddr)
  }

  function Back(mode: Mode, o: OptInfo): seq<Opt> {
    When(mode == ServerMode && o.pref != 0, PREFERENCE, [o.pref % 256])
    + Statuses(Completed(mode, o).status)
    + When(o.wanted != [], ORO, Numbers(o.wanted))
    + When(o.dns != [], DNS, Ips(o.dns))
  }

  // In the order they are written.
  function Options(mode: Mode, o: OptInfo): seq<Opt> {
    Front(mode, o) + When(o.iaid != 0, IaType(o.kind), IaInfo(o) + AddrInfos(o.kind, o.addrs)) + Back(mode, o)
  }

  // All options if they fit, each being checked when its turn comes.
  function Encode(mode: Mode, o: OptInfo, room: nat): Option<Octets> {
    var b := Concat(Options(mode, o));
    if |b| <= room then Some(b) else None
  }

  // ---------------------------------------------------------------------------
  // Reading
  // ---------------------------------------------------------------------------

  predicate SameAddr(a: Addr, b: Addr) {
    a.ip == b.ip && a.plen == b.plen
  }

  predicate Known(addrs: seq<Addr>, a: Addr) {
    exists i :: 0 <= i < |addrs| && SameAddr(addrs[i], a)
  }

  // The status option behind the fixed part of an address, whatever the outer length says.
  function ReadStatus(b: Octets): Option<nat> {
    if |b| < 4 || Get2(b) != STATUS_CODE || Get2(b[2..]) < 2 || |b| < 6 then None else Some(Get2(b[4..]))
  }

  // The address or prefix at the front, whose option announces len bytes.
  function ReadAddr(kind: Kind, len: nat, b: Octets): Option<Addr>
    requires |b| >= 4 + len
  {
    var t := Get2(b);
    var fixed := if t == IA_PD_PREFIX then 25 else 24;
    if (t != IADDR && t != IA_PD_PREFIX) || len < fixed then None
    else
      var (ip, plen, times) := if t == IA_PD_PREFIX then (b[13..29], b[12] as nat, b[4..]) else (b[4..20], 0, b[20..]);
      var prefer, valid := Get4(times), Get4(times[4..]);
      if prefer > valid then None
      else if len == fixed then Some(Addr(kind, ip, plen, prefer, valid, UNDEFINED))
      else
        var status := ReadStatus(b[4 + fixed..]);
        if status.None? then None else Some(Addr(kind, ip, plen, prefer, valid, status.value))
  }

  function ReadAddrs(kind: Kind, b: Octets, addrs: seq<Addr>): Option<seq<Addr>>
    decreases |b|
  {
    if |b| < 4 then Some(addrs)
    else
      var len := Get2(b[2..]);
      if |b| < 4 + len then None
      else
        var a := ReadAddr(kind, len, b);
        if a.None? then None
        else ReadAddrs(kind, b[4 + len..], if Known(addrs, a.value) then addrs else addrs + [a.value])
  }

  function ReadNumbers(v: Octets, ns: seq<nat>): seq<nat>
    requires |v| % 2 == 0
    decreases |v|
  {
    if v == [] then ns else ReadNumbers(v[2..], if Get2(v) in ns then ns else ns + [Get2(v)])
  }

  function ReadIps(v: Octets, ips: seq<Octets>): seq<Octets>
    requires |v| % IP_SIZE == 0
    decreases |v|
  {
    if v == [] then ips else ReadIps(v[IP_SIZE..], if v[..IP_SIZE] in ips then ips else ips + [v[..IP_SIZE]])
  }

  function ReadIa(o: OptInfo, kind: Kind, v: Octets): Option<OptInfo> {
    var fixed := if kind == IaTa then 4 else 12;
    if |v| < fixed then None
    else
      var o1 := if kind == IaTa then o.(kind := kind, iaid := Get4(v), tempAddrs := true)
                else o.(kind := kind, iaid := Get4(v), renew := Get4(v[4..]), rebind := Get4(v[8..]));
      var addrs := ReadAddrs(kind, v[fixed..], o.addrs);
      if addrs.None? then None else Some(o1.(addrs := addrs.value))
  }

  // The length of a DUID is kept in one byte.
  function Duid(v: Octets): Octets {
    v[..|v| % 256]
  }

  function ReadOption(mode: Mode, o: OptInfo, t: nat, v: Octets): Option<OptInfo> {
    if t == CLIENTID then if v == [] then None else Some(o.(clientId := Duid(v)))
    else if t == SERVERID then if v == [] then None else Some(o.(serverId := Duid(v)))
    else if t == ELAPSED_TIME then if |v| != 2 then None else Some(o)
    else if t == STATUS_CODE then if |v| < 2 then None else Some(o.(status := o.status + [Get2(v)]))
    else if t == ORO then if |v| % 2 != 0 || v == [] then None else Some(o.(wanted := ReadNumbers(v, o.wanted)))
    else if t == PREFERENCE then if |v| != 1 then None else Some(o.(pref := v[0]))
    else if t == RAPID_COMMIT then if v != [] then None else Some(o.(rapid := true))
    else if t == UNICAST then
      if (|v| != IP_SIZE && mode == ServerMode) || |v| < IP_SIZE then None
      else Some(o.(unicast := true, serverAddr := v[..IP_SIZE]))
    else if t == IA_TA then ReadIa(o, IaTa, v)
    else if t == IA_NA then ReadIa(o, IaNa, v)
    else if t == IA_PD then ReadIa(o, IaPd, v)
    else if t == DNS then if |v| % IP_SIZE != 0 || v == [] then None else Some(o.(dns := ReadIps(v, o.dns)))
    else Some(o)
  }

  // Fewer than four bytes at the end are ignored.
  function Decode(mode: Mode, b: Octets, o: OptInfo): Option<OptInfo>
    decreases |b|
  {
    if |b| < 4 then Some(o)
    else
      var len := Get2(b[2..]);
      if |b| < 4 + len then None
      else
        var o1 := ReadOption(mode, o, Get2(b), b[4..4 + len]);
        if o1.None? then None else Decode(mode, b[4 + len..], o1.value)
  }

  // ---------------------------------------------------------------------------
  // Reading what was written: framing
  // ---------------------------------------------------------------------------

  predicate Framed(o: Opt) {
    o.t < 0x10000 && |o.v| < 0x10000
  }

  lemma TlvFront(o: Opt, rest: Octets)
    requires Framed(o)
    ensures var b := Tlv(o) + rest;
            && Get2(b) == o.t && Get2(b[2..]) == |o.v|
            && b[4..4 + |o.v|] == o.v && b[4 + |o.v|..] == rest && b[4..] == o.v + rest
  {
    hide Be2, Get2;
    var b := Tlv(o) + rest;
    assert b == Be2(o.t) + (Be2(|o.v|) + (o.v + rest));
    GetBe2(o.t, Be2(|o.v|) + (o.v + rest));
    GetBe2(|o.v|, o.v + rest);
    assert b[2..] == Be2(|o.v|) + (o.v + rest);
    assert b[4..] == o.v + rest;
  }

  lemma DecodeOne(mode: Mode, o: Opt, rest: Octets, info: OptInfo)
    requires Framed(o)
    ensures var r := ReadOption(mode, info, o.t, o.v);
            Decode(mode, Tlv(o) + rest, info) == if r.None? then None else Decode(mode, rest, r.value)
  {
    hide ReadOption, Tlv, Get2;
    TlvFront(o, rest);
  }

  // Options handled one after the other.
  function HandleAll(mode: Mode, opts: seq<Opt>, info: OptInfo): Option<OptInfo> {
    if opts == [] then Some(info)
    else
      var r := ReadOption(mode, info, opts[0].t, opts[0].v);
      if r.None? then None else HandleAll(mode, opts[1..], r.value)
  }

  lemma {:induction false} DecodeConcat(mode: Mode, opts: seq<Opt>, info: OptInfo)
    requires forall i :: 0 <= i < |opts| ==> Framed(opts[i])
    ensures Decode(mode, Concat(opts), info) == HandleAll(mode, opts, info)
    decreases |opts|
  {
    hide ReadOption, Tlv;
    if opts != [] {
      DecodeOne(mode, opts[0], Concat(opts[1..]), info);
      var r := ReadOption(mode, info, opts[0].t, opts[0].v);
      if r.Some? {
        DecodeConcat(mode, opts[1..], r.value);
      }
    }
  }

  lemma {:induction false} HandleBoth(mode: Mode, a: seq<Opt>, b: seq<Opt>, info: OptInfo)
    ensures var r := HandleAll(mode, a, info);
            HandleAll(mode, a + b, info) == if r.None? then None else HandleAll(mode, b, r.value)
    decreases |a|
  {
    hide ReadOption;
    if a == [] {
      assert a + b == b;
    } else {
      assert (a + b)[1..] == a[1..] + b;
      var r := ReadOption(mode, info, a[0].t, a[0].v);
      if r.Some? {
        HandleBoth(mode, a[1..], b, r.value);
      }
    }
  }

  // ---------------------------------------------------------------------------
  // Reading what was written: addresses
  // ---------------------------------------------------------------------------

  // An address as an association of this kind can carry it; its lifetimes may still be wrong.
  predicate Carriable(kind: Kind, a: Addr) {
    && a.kind == kind && |a.ip| == IP_SIZE && a.plen < 256 && (kind != IaPd ==> a.plen == 0)
    && a.prefer <= 0xffffffff && a.valid <= 0xffffffff && a.status <= UNDEFINED
  }

  predicate Ordered(a: Addr) {
    a.prefer <= a.valid
  }

  ghost predicate AllDifferent(addrs: seq<Addr>) {
    forall i, j :: 0 <= i < j < |addrs| ==> !SameAddr(addrs[i], addrs[j])
  }

  function InfoSize(kind: Kind, a: Addr): nat {
    (if kind == IaPd then 29 else 28) + (if a.status == UNDEFINED then 0 else 6)
  }

  lemma InfoSizeIs(kind: Kind, a: Addr)
    requires |a.ip| == IP_SIZE
    ensures |AddrInfo(kind, a)| == InfoSize(kind, a)
  {
  }

  lemma StatusRead(status: nat, rest: Octets)
    requires status < UNDEFINED
    ensures ReadStatus(StatusInfo(status) + rest) == Some(status) && |StatusInfo(status)| == 6
  {
    hide Get2, Be2, Tlv;
    var o := Opt(STATUS_CODE, Be2(status));
    TlvFront(o, rest);
    GetBe2(status, rest);
  }

  lemma FieldsRead(x: Octets, y: Octets, z: Octets, rest: Octets)
    ensures var b := x + y + z + rest;
            && b[..|x|] == x && b[|x|..|x| + |y|] == y && b[|x| + |y|..|x| + |y| + |z|] == z
               && b[|x| + |y| + |z|..] == rest
            && b[|x|..] == y + (z + rest) && b[|x| + |y|..] == z + rest
  {
  }

  lemma AddressRead(a: Addr, rest: Octets)
    requires Carriable(a.kind, a) && a.kind != IaPd
    ensures var b := AddrInfo(a.kind, a) + rest;
            && Get2(b[2..]) == InfoSize(a.kind, a) - 4 && b[InfoSize(a.kind, a)..] == rest
            && ReadAddr(a.kind, InfoSize(a.kind, a) - 4, b) == if Ordered(a) then Some(a) else None
  {
    hide Get2, Get4, Be4, Be2, Tlv, ReadStatus, StatusInfo;
    var s := StatusInfo(a.status);
    var v := a.ip + Be4(a.prefer) + Be4(a.valid) + s;
    var b := Tlv(Opt(IADDR, v)) + rest;
    if a.status != UNDEFINED {
      StatusRead(a.status, rest);
    } else {
      NoStatus();
    }
    TlvFront(Opt(IADDR, v), rest);
    assert b[4..] == a.ip + Be4(a.prefer) + Be4(a.valid) + (s + rest);
    FieldsRead(a.ip, Be4(a.prefer), Be4(a.valid), s + rest);
    AfterHeader(b, b[4..], 16);
    AfterHeader(b, b[4..], 20);
    AfterHeader(b, b[4..], 24);
    assert b[4..20] == b[4..][..16];
    GetBe4(a.prefer, Be4(a.valid) + (s + rest));
    GetBe4(a.valid, s + rest);
    assert b[20..][4..] == b[24..];
  }

  lemma AfterHeader(b: Octets, v: Octets, n: nat)
    requires |b| >= 4 + n && v == b[4..]
    ensures b[4 + n..] == v[n..]
  {
  }

  lemma NoStatus()
    ensures StatusInfo(UNDEFINED) == []
  {
  }

  lemma PrefixRead(a: Addr, rest: Octets)
    requires Carriable(a.kind, a) && a.kind == IaPd
    ensures var b := AddrInfo(a.kind, a) + rest;
            && Get2(b[2..]) == InfoSize(a.kind, a) - 4 && b[InfoSize(a.kind, a)..] == rest
            && ReadAddr(a.kind, InfoSize(a.kind, a) - 4, b) == if Ordered(a) then Some(a) else None
  {
    hide Get2, Get4, Be4, Be2, Tlv, ReadStatus, StatusInfo;
    var s := StatusInfo(a.status);
    var tail := [a.plen] + a.ip + s;
    var v := Be4(a.prefer) + Be4(a.valid) + [a.plen] + a.ip + s;
    var b := Tlv(Opt(IA_PD_PREFIX, v)) + rest;
    if a.status != UNDEFINED {
      StatusRead(a.status, rest);
    } else {
      NoStatus();
    }
    TlvFront(Opt(IA_PD_PREFIX, v), rest);
    assert b[4..] == Be4(a.prefer) + Be4(a.valid) + [a.plen] + (a.ip + (s + rest));
    FieldsRead(Be4(a.prefer), Be4(a.valid), [a.plen], a.ip + (s + rest));
    AfterHeader(b, b[4..], 8);
    AfterHeader(b, b[4..], 9);
    AfterHeader(b, b[4..], 25);
    assert b[12..] == [a.plen] + (a.ip + (s + rest)) && b[13..] == a.ip + (s + rest);
    assert b[12] == a.plen && b[13..29] == b[13..][..16] == a.ip;
    assert b[29..] == b[13..][16..] == s + rest;
    GetBe4(a.prefer, Be4(a.valid) + ([a.plen] + (a.ip + (s + rest))));
    GetBe4(a.valid, [a.plen] + (a.ip + (s + rest)));
    assert b[4..][4..] == Be4(a.valid) + ([a.plen] + (a.ip + (s + rest)));
    assert b[4..] == Be4(a.prefer) + (Be4(a.valid) + ([a.plen] + (a.ip + (s + rest))));
  }

  // All addresses come back in order, unless one of them has a preferred lifetime beyond its
  // valid one: then nothing does.
  lemma {:induction false} AddrsRead(kind: Kind, addrs: seq<Addr>, known: seq<Addr>)
    requires forall i :: 0 <= i < |addrs| ==> Carriable(kind, addrs[i])
    requires AllDifferent(known + addrs)
    ensures ReadAddrs(kind, AddrInfos(kind, addrs), known)
         == if forall i :: 0 <= i < |addrs| ==> Ordered(addrs[i]) then Some(known + addrs) else None
    decreases |addrs|
  {
    hide ReadAddr, AddrInfo, Get2, SameAddr, Carriable, Ordered;
    if addrs == [] {
      assert known + addrs == known;
    } else {
      var a, rest := addrs[0], AddrInfos(kind, addrs[1..]);
      OneRead(kind, a, rest);
      NotKnown(known, addrs);
      if Ordered(a) {
        assert (known + [a]) + addrs[1..] == known + addrs;
        AddrsRead(kind, addrs[1..], known + [a]);
        assert forall i :: 0 <= i < |addrs[1..]| ==> addrs[1..][i] == addrs[i + 1];
        AllOrdered(addrs);
      }
    }
  }

  lemma AllOrdered(addrs: seq<Addr>)
    requires addrs != [] && Ordered(addrs[0])
    ensures (forall i :: 0 <= i < |addrs| ==> Ordered(addrs[i])) <==> forall i :: 0 <= i < |addrs[1..]| ==>
              Ordered(addrs[1..][i])
  {
    hide Ordered;
    if forall i :: 0 <= i < |addrs[1..]| ==> Ordered(addrs[1..][i]) {
      forall i | 0 <= i < |addrs| ensures Ordered(addrs[i]) {
        if i > 0 {
          assert addrs[i] == addrs[1..][i - 1];
        }
      }
    }
  }

  lemma OneRead(kind: Kind, a: Addr, rest: Octets)
    requires Carriable(kind, a)
    ensures var b := AddrInfo(kind, a) + rest;
            && |b| >= 4 && Get2(b[2..]) == InfoSize(kind, a) - 4 && |b| >= InfoSize(kind, a)
               && b[InfoSize(kind, a)..] == rest
            && ReadAddr(kind, InfoSize(kind, a) - 4, b) == if Ordered(a) then Some(a) else None
  {
    InfoSizeIs(kind, a);
    if kind == IaPd {
      PrefixRead(a, rest);
    } else {
      AddressRead(a, rest);
    }
    hide ReadAddr, AddrInfo, Get2;
  }

  lemma NotKnown(known: seq<Addr>, addrs: seq<Addr>)
    requires addrs != [] && AllDifferent(known + addrs)
    ensures !Known(known, addrs[0])
  {
    hide SameAddr;
    forall i | 0 <= i < |known| ensures !SameAddr(known[i], addrs[0]) {
      assert (known + addrs)[i] == known[i] && (known + addrs)[|known|] == addrs[0];
    }
  }

  // ---------------------------------------------------------------------------
  // Reading what was written: lists
  // ---------------------------------------------------------------------------

  ghost predicate Distinct<T>(s: seq<T>) {
    forall i, j :: 0 <= i < j < |s| ==> s[i] != s[j]
  }

  lemma NotYet<T>(known: seq<T>, s: seq<T>)
    requires s != [] && Distinct(known + s)
    ensures s[0] !in known && known + s == (known + [s[0]]) + s[1..]
  {
    forall i | 0 <= i < |known| ensures known[i] != s[0] {
      assert (known + s)[i] == known[i] && (known + s)[|known|] == s[0];
    }
  }

  lemma {:induction false} NumbersRead(ns: seq<nat>, known: seq<nat>)
    requires Distinct(known + ns) && forall i :: 0 <= i < |ns| ==> ns[i] < 0x10000
    ensures |Numbers(ns)| == 2 * |ns| && ReadNumbers(Numbers(ns), known) == known + ns
    decreases |ns|
  {
    hide Be2, Get2, Distinct;
    if ns == [] {
      assert known + ns == known;
    } else {
      NotYet(known, ns);
      GetBe2(ns[0], Numbers(ns[1..]));
      NumbersRead(ns[1..], known + [ns[0]]);
      assert Numbers(ns)[2..] == Numbers(ns[1..]);
    }
  }

  lemma {:induction false} IpsRead(ips: seq<Octets>, known: seq<Octets>)
    requires Distinct(known + ips) && forall i :: 0 <= i < |ips| ==> |ips[i]| == IP_SIZE
    ensures |Ips(ips)| == IP_SIZE * |ips| && ReadIps(Ips(ips), known) == known + ips
    decreases |ips|
  {
    hide Distinct;
    if ips == [] {
      assert known + ips == known;
    } else {
      NotYet(known, ips);
      IpsRead(ips[1..], known + [ips[0]]);
      assert Ips(ips)[IP_SIZE..] == Ips(ips[1..]) && Ips(ips)[..IP_SIZE] == ips[0];
    }
  }

  // ---------------------------------------------------------------------------
  // The round trip
  // ---------------------------------------------------------------------------

  // Everything the format asks for, except that lifetimes are in order.
  ghost predicate WellFormed(mode: Mode, o: OptInfo) {
    && |o.clientId| <= 255 && |o.serverId| <= 255 && |o.serverAddr| == IP_SIZE
    && o.iaid <= 0xffffffff && o.renew <= 0xffffffff && o.rebind <= 0xffffffff && o.pref <= 255
    && (forall i :: 0 <= i < |o.addrs| ==> Carriable(o.kind, o.addrs[i])) && AllDifferent(o.addrs)
    && (forall i :: 0 <= i < |o.status| ==> o.status[i] < 0x10000)
    && (forall i :: 0 <= i < |o.wanted| ==> o.wanted[i] < 0x10000) && Distinct(o.wanted)
    && (forall i :: 0 <= i < |o.dns| ==> |o.dns[i]| == IP_SIZE) && Distinct(o.dns)
    && (forall i :: 0 <= i < |Options(mode, o)| ==> Framed(Options(mode, o)[i]))
  }

  predicate LifetimesOrdered(o: OptInfo) {
    forall i :: 0 <= i < |o.addrs| ==> Ordered(o.addrs[i])
  }

  // What arrives: without the elapsed time, and without what this sender does not send.
  function Carried(mode: Mode, o: OptInfo): OptInfo {
    var server, ia := mode == ServerMode, o.iaid != 0;
    var unicast := server && o.unicast && o.serverAddr != ANY;
    OptInfo(o.clientId, o.serverId, 0, o.rapid, unicast, ia && o.kind == IaTa, if unicast then o.serverAddr else ANY,
            if ia then o.kind else IaNa, o.iaid,
            if ia && o.kind != IaTa then o.renew else 0, if ia && o.kind != IaTa then o.rebind else 0,
            if ia then o.addrs else [],
            if server then o.pref else 0, Completed(mode, o).status, o.wanted, o.dns)
  }

  function Peer(mode: Mode): Mode {
    if mode == ClientMode then ServerMode else ClientMode
  }

  // After the options in front of the association, and after the association.
  function AtIa(mode: Mode, o: OptInfo): OptInfo {
    var unicast := mode == ServerMode && o.unicast && o.serverAddr != ANY;
    NO_OPTIONS.(clientId := o.clientId, serverId := o.serverId, rapid := o.rapid,
                unicast := unicast, serverAddr := if unicast then o.serverAddr else ANY)
  }

  function PastIa(mode: Mode, o: OptInfo): OptInfo {
    if o.iaid == 0 then AtIa(mode, o)
    else
      AtIa(mode, o).(kind := o.kind, iaid := o.iaid, tempAddrs := o.kind == IaTa, addrs := o.addrs,
                     renew := if o.kind != IaTa then o.renew else 0, rebind := if o.kind != IaTa then o.rebind else 0)
  }

  lemma HandleWhen(mode: Mode, c: bool, t: nat, v: Octets, info: OptInfo)
    ensures HandleAll(mode, When(c, t, v), info) == if c then ReadOption(mode, info, t, v) else Some(info)
  {
    hide ReadOption;
    assert [Opt(t, v)][1..] == [];
  }

  lemma DuidRead(v: Octets)
    requires |v| <= 255
    ensures Duid(v) == v
  {
    assert v[..|v|] == v;
  }

  lemma FrontRead(mode: Mode, o: OptInfo)
    requires |o.clientId| <= 255 && |o.serverId| <= 255 && |o.serverAddr| == IP_SIZE
    ensures HandleAll(Peer(mode), Front(mode, o), NO_OPTIONS) == Some(AtIa(mode, o))
  {
    hide HandleAll, Repeat, Be2;
    var p := Peer(mode);
    var unicast := mode == ServerMode && o.unicast && o.serverAddr != ANY;
    var o1 := When(mode == ClientMode, ELAPSED_TIME, Be2(o.elapsed));
    var o2 := When(o.clientId != [], CLIENTID, o.clientId);
    var o3 := When(o.serverId != [], SERVERID, o.serverId);
    var o4 := When(o.rapid, RAPID_COMMIT, []);
    var o5 := When(unicast, UNICAST, o.serverAddr);
    DuidRead(o.clientId);
    DuidRead(o.serverId);
    assert o.serverAddr[..IP_SIZE] == o.serverAddr;
    var i2 := NO_OPTIONS.(clientId := o.clientId);
    var i3 := i2.(serverId := o.serverId);
    var i4 := i3.(rapid := o.rapid);
    HandleWhen(p, mode == ClientMode, ELAPSED_TIME, Be2(o.elapsed), NO_OPTIONS);
    HandleWhen(p, o.clientId != [], CLIENTID, o.clientId, NO_OPTIONS);
    HandleWhen(p, o.serverId != [], SERVERID, o.serverId, i2);
    HandleWhen(p, o.rapid, RAPID_COMMIT, [], i3);
    HandleWhen(p, unicast, UNICAST, o.serverAddr, i4);
    HandleBoth(p, o1, o2, NO_OPTIONS);
    HandleBoth(p, o1 + o2, o3, NO_OPTIONS);
    HandleBoth(p, o1 + o2 + o3, o4, NO_OPTIONS);
    HandleBoth(p, o1 + o2 + o3 + o4, o5, NO_OPTIONS);
  }

  lemma IaInfoRead(o: OptInfo, rest: Octets)
    requires o.iaid <= 0xffffffff && o.renew <= 0xffffffff && o.rebind <= 0xffffffff
    ensures var v := IaInfo(o) + rest;
            var fixed := if o.kind == IaTa then 4 else 12;
            && |v| >= fixed && v[fixed..] == rest && Get4(v) == o.iaid
            && (o.kind != IaTa ==> Get4(v[4..]) == o.renew && Get4(v[8..]) == o.rebind)
  {
    hide Get4, Be4;
    var v := IaInfo(o) + rest;
    if o.kind == IaTa {
      assert v == Be4(o.iaid) + rest;
      GetBe4(o.iaid, rest);
    } else {
      assert v == Be4(o.iaid) + (Be4(o.renew) + (Be4(o.rebind) + rest));
      GetBe4(o.iaid, Be4(o.renew) + (Be4(o.rebind) + rest));
      assert v[4..] == Be4(o.renew) + (Be4(o.rebind) + rest);
      GetBe4(o.renew, Be4(o.rebind) + rest);
      assert v[8..] == Be4(o.rebind) + rest;
      GetBe4(o.rebind, rest);
    }
  }

  lemma IaRead(mode: Mode, o: OptInfo)
    requires o.iaid <= 0xffffffff && o.renew <= 0xffffffff && o.rebind <= 0xffffffff
    requires (forall i :: 0 <= i < |o.addrs| ==> Carriable(o.kind, o.addrs[i])) && AllDifferent(o.addrs)
    ensures HandleAll(Peer(mode), When(o.iaid != 0, IaType(o.kind), IaInfo(o) + AddrInfos(o.kind, o.addrs)),
                      AtIa(mode, o))
         == if o.iaid == 0 || LifetimesOrdered(o) then Some(PastIa(mode, o)) else None
  {
    hide HandleAll, Get4, IaInfo, AddrInfos, ReadAddrs, Carriable, Ordered, Repeat, AllDifferent;
    var v := IaInfo(o) + AddrInfos(o.kind, o.addrs);
    HandleWhen(Peer(mode), o.iaid != 0, IaType(o.kind), v, AtIa(mode, o));
    IaInfoRead(o, AddrInfos(o.kind, o.addrs));
    assert [] + o.addrs == o.addrs;
    AddrsRead(o.kind, o.addrs, []);
  }

  lemma {:induction false} StatusesRead(mode: Mode, codes: seq<nat>, info: OptInfo)
    requires forall i :: 0 <= i < |codes| ==> codes[i] < 0x10000
    ensures HandleAll(mode, Statuses(codes), info) == Some(info.(status := info.status + codes))
    decreases |codes|
  {
    hide Be2, Get2;
    if codes == [] {
      assert info.status + codes == info.status;
    } else {
      GetBe2(codes[0], []);
      assert Be2(codes[0]) + [] == Be2(codes[0]);
      StatusesRead(mode, codes[1..], info.(status := info.status + [codes[0]]));
      assert info.status + [codes[0]] + codes[1..] == info.status + codes;
      assert Statuses(codes)[1..] == Statuses(codes[1..]);
    }
  }

  lemma CompletedStatus(mode: Mode, o: OptInfo)
    requires forall i :: 0 <= i < |o.status| ==> o.status[i] < 0x10000
    ensures forall i :: 0 <= i < |Completed(mode, o).status| ==> Completed(mode, o).status[i] < 0x10000
  {
  }

  lemma BackRead(mode: Mode, o: OptInfo, info: OptInfo)
    requires o.pref <= 255 && info.pref == 0 && info.status == [] && info.wanted == [] && info.dns == []
    requires forall i :: 0 <= i < |o.status| ==> o.status[i] < 0x10000
    requires (forall i :: 0 <= i < |o.wanted| ==> o.wanted[i] < 0x10000) && Distinct(o.wanted)
    requires (forall i :: 0 <= i < |o.dns| ==> |o.dns[i]| == IP_SIZE) && Distinct(o.dns)
    ensures HandleAll(Peer(mode), Back(mode, o), info)
         == Some(info.(pref := if mode == ServerMode then o.pref else 0, status := Completed(mode, o).status,
                       wanted := o.wanted, dns := o.dns))
  {
    hide HandleAll, Numbers, Ips, ReadNumbers, ReadIps, Statuses, Completed, Distinct, Duid, ReadIa, Get2;
    var p, codes := Peer(mode), Completed(mode, o).status;
    var sent := mode == ServerMode && o.pref != 0;
    var o1, o2 := When(sent, PREFERENCE, [o.pref % 256]), Statuses(codes);
    var o3, o4 := When(o.wanted != [], ORO, Numbers(o.wanted)), When(o.dns != [], DNS, Ips(o.dns));
    var i1 := info.(pref := if mode == ServerMode then o.pref else 0);
    var i2 := i1.(status := codes);
    var i3 := i2.(wanted := o.wanted);
    CompletedStatus(mode, o);
    assert [] + codes == codes && [] + o.wanted == o.wanted && [] + o.dns == o.dns;
    NumbersRead(o.wanted, []);
    IpsRead(o.dns, []);
    HandleWhen(p, sent, PREFERENCE, [o.pref % 256], info);
    StatusesRead(p, codes, i1);
    HandleWhen(p, o.wanted != [], ORO, Numbers(o.wanted), i2);
    HandleWhen(p, o.dns != [], DNS, Ips(o.dns), i3);
    HandleBoth(p, o1, o2, info);
    HandleBoth(p, o1 + o2, o3, info);
    HandleBoth(p, o1 + o2 + o3, o4, info);
  }

  // Reading back what was written: the carried fields come back unchanged exactly if no address
  // prefers to live longer than it is valid; otherwise the whole message is refused.
  lemma RoundTrip(mode: Mode, o: OptInfo)
    requires WellFormed(mode, o)
    ensures Decode(Peer(mode), Concat(Options(mode, o)), NO_OPTIONS)
         == if o.iaid == 0 || LifetimesOrdered(o) then Some(Carried(mode, o)) else None
  {
    hide HandleAll, Front, Back, IaInfo, AddrInfos, Completed, LifetimesOrdered, Decode, Concat, Repeat;
    var p, ia := Peer(mode), When(o.iaid != 0, IaType(o.kind), IaInfo(o) + AddrInfos(o.kind, o.addrs));
    DecodeConcat(p, Options(mode, o), NO_OPTIONS);
    FrontRead(mode, o);
    IaRead(mode, o);
    HandleBoth(p, Front(mode, o), ia, NO_OPTIONS);
    HandleBoth(p, Front(mode, o) + ia, Back(mode, o), NO_OPTIONS);
    if o.iaid == 0 || LifetimesOrdered(o) {
      BackRead(mode, o, PastIa(mode, o));
    }
  }

  // A DUID comes back unchanged exactly if its length fits a byte.
  lemma DuidExactly(v: Octets)
    ensures Duid(v) == v <==> |v| <= 255
  {
    DuidRead(if |v| <= 255 then v else []);
  }

  // The size of an association is its fixed part and 28 or 29 bytes an address, 6 more with a
  // status.
  function InfosSize(kind: Kind, addrs: seq<Addr>): nat {
    if addrs == [] then 0 else InfoSize(kind, addrs[0]) + InfosSize(kind, addrs[1..])
  }

  lemma {:induction false} AssociationSize(o: OptInfo, addrs: seq<Addr>)
    requires forall i :: 0 <= i < |addrs| ==> |addrs[i].ip| == IP_SIZE
    ensures |AddrInfos(o.kind, addrs)| == InfosSize(o.kind, addrs)
    ensures |IaInfo(o)| == if o.kind == IaTa then 4 else 12
    decreases |addrs|
  {
    hide AddrInfo, InfoSize;
    if addrs != [] {
      InfoSizeIs(o.kind, addrs[0]);
      AssociationSize(o, addrs[1..]);
    }
  }

  // Each length field counts what is behind it: that of the association option all of its
  // addresses, that of an address its lifetimes and its status.
  lemma NestedLengths(o: OptInfo, i: nat)
    requires forall j :: 0 <= j < |o.addrs| ==> |o.addrs[j].ip| == IP_SIZE
    requires i < |o.addrs| && |IaInfo(o) + AddrInfos(o.kind, o.addrs)| < 0x10000
    ensures var ia := Tlv(Opt(IaType(o.kind), IaInfo(o) + AddrInfos(o.kind, o.addrs)));
            Get2(ia[2..]) == |ia| - 4 == (if o.kind == IaTa then 4 else 12) + InfosSize(o.kind, o.addrs)
    ensures var info := AddrInfo(o.kind, o.addrs[i]);
            Get2(info[2..]) == |info| - 4 == InfoSize(o.kind, o.addrs[i]) - 4
    ensures var status := StatusInfo(o.addrs[i].status);
            status != [] ==> Get2(status[2..]) == |status| - 4 == 2
  {
    hide AddrInfos, InfosSize, InfoSize;
    AssociationSize(o, o.addrs);
    var ia := Opt(IaType(o.kind), IaInfo(o) + AddrInfos(o.kind, o.addrs));
    LengthField(ia);
    InfoSizeIs(o.kind, o.addrs[i]);
    var a := o.addrs[i];
    LengthField(Opt(STATUS_CODE, Be2(a.status)));
    var v := if o.kind == IaPd then Be4(a.prefer) + Be4(a.valid) + [a.plen % 256] + a.ip + StatusInfo(a.status)
             else a.ip + Be4(a.prefer) + Be4(a.valid) + StatusInfo(a.status);
    LengthField(Opt(if o.kind == IaPd then IA_PD_PREFIX else IADDR, v));
  }

  lemma LengthField(o: Opt)
    requires |o.v| < 0x10000
    ensures Get2(Tlv(o)[2..]) == |o.v| == |Tlv(o)| - 4
  {
    GetBe2(|o.v|, o.v);
    assert Tlv(o)[2..] == Be2(|o.v|) + o.v;
  }

  // ---------------------------------------------------------------------------
  // Writing into the message buffer
  // ---------------------------------------------------------------------------

  lemma {:induction false} ConcatBoth(a: seq<Opt>, b: seq<Opt>)
    ensures Concat(a + b) == Concat(a) + Concat(b)
  {
    hide Tlv;
    if a == [] {
      assert a + b == b;
    } else {
      ConcatBoth(a[1..], b);
      assert (a + b)[1..] == a[1..] + b;
      Associate(Tlv(a[0]), Concat(a[1..]), Concat(b));
    }
  }

  lemma Associate(x: Octets, y: Octets, z: Octets)
    ensures x + (y + z) == x + y + z
  {
  }

  lemma ConcatWhen(c: bool, t: nat, v: Octets)
    ensures Concat(When(c, t, v)) == if c then Tlv(Opt(t, v)) else []
  {
    hide Tlv;
    if c {
      assert [Opt(t, v)][1..] == [];
      assert Tlv(Opt(t, v)) + [] == Tlv(Opt(t, v));
    }
  }

  // One option, if it fits; done are the options already written in front of p.
  method CopyOption(c: bool, t: nat, v: Octets, p: nat, buf: array<byte>, ghost done: seq<Opt>)
    returns (ok: bool, p1: nat)
    requires Holds(buf, Concat(done)) && |Concat(done)| == p
    modifies buf
    ensures ok == (|Concat(done + When(c, t, v))| <= buf.Length)
    ensures ok ==> Holds(buf, Concat(done + When(c, t, v))) && p1 == |Concat(done + When(c, t, v))|
  {
    ConcatBoth(done, When(c, t, v));
    ConcatWhen(c, t, v);
    hide Concat, Be2, When;
    p1 := p;
    if !c {
      assert Concat(done) + [] == Concat(done);
      HoldsFits(buf, Concat(done));
      return true, p;
    }
    if buf.Length - p < |v| + 4 {
      return false, p;
    }
    hide Holds;
    Extend(buf, p, Be2(t) + Be2(|v|), Concat(done));
    Extend(buf, p + 4, v, Concat(done) + (Be2(t) + Be2(|v|)));
    assert Concat(done) + (Be2(t) + Be2(|v|)) + v == Concat(done) + (Be2(t) + Be2(|v|) + v);
    return true, p + 4 + |v|;
  }

  lemma HoldsFits(buf: array<byte>, s: Octets)
    requires Holds(buf, s)
    ensures |s| <= buf.Length
  {
  }

  method CopyStatuses(codes: seq<nat>, p: nat, buf: array<byte>, ghost done: seq<Opt>) returns (ok: bool, p1: nat)
    requires Holds(buf, Concat(done)) && |Concat(done)| == p
    modifies buf
    ensures ok == (|Concat(done + Statuses(codes))| <= buf.Length)
    ensures ok ==> Holds(buf, Concat(done + Statuses(codes))) && p1 == |Concat(done + Statuses(codes))|
  {
    hide Concat, Holds, When, Be2, Statuses;
    HoldsFits(buf, Concat(done));
    var i := 0;
    ghost var written: seq<Opt> := [];
    assert codes[0..] == codes && done + [] == done;
    p1 := p;
    while i < |codes|
      invariant 0 <= i <= |codes| && Statuses(codes) == written + Statuses(codes[i..])
      invariant Holds(buf, Concat(done + written)) && p1 == |Concat(done + written)| <= buf.Length
    {
      ghost var next := When(true, STATUS_CODE, Be2(codes[i]));
      StatusesFrom(codes, i);
      assert (done + written) + next == done + (written + next);
      assert written + next + Statuses(codes[i + 1..]) == Statuses(codes);
      ok, p1 := CopyOption(true, STATUS_CODE, Be2(codes[i]), p1, buf, done + written);
      if !ok {
        Longer(done + (written + next), Statuses(codes[i + 1..]));
        assert done + (written + next) + Statuses(codes[i + 1..]) == done + Statuses(codes);
        return;
      }
      written := written + next;
      HoldsFits(buf, Concat(done + written));
      i := i + 1;
    }
    NoStatuses();
    assert codes[i..] == [] && written + [] == written;
    ok := true;
  }

  lemma StatusesFrom(codes: seq<nat>, i: nat)
    requires i < |codes|
    ensures Statuses(codes[i..]) == When(true, STATUS_CODE, Be2(codes[i])) + Statuses(codes[i + 1..])
  {
    assert codes[i..][1..] == codes[i + 1..];
  }

  lemma NoStatuses()
    ensures Statuses([]) == []
  {
  }

  lemma Longer(a: seq<Opt>, b: seq<Opt>)
    ensures |Concat(a + b)| >= |Concat(a)|
  {
    ConcatBoth(a, b);
    hide Concat;
  }

  // The association in a buffer of its own, address by address.
  method BuildIa(o: OptInfo) returns (ia: Octets)
    requires forall i :: 0 <= i < |o.addrs| ==> |o.addrs[i].ip| == IP_SIZE
    ensures ia == IaInfo(o) + AddrInfos(o.kind, o.addrs)
  {
    hide AddrInfo, Be4, Holds;
    var size := if o.kind == IaPd then 29 else 28;
    var tmp := new byte[12 + |o.addrs| * (size + 6)](_ => 0);
    AssociationSize(o, []);
    var at := |IaInfo(o)|;
    NoneHeld(tmp);
    Extend(tmp, 0, IaInfo(o), []);
    assert [] + IaInfo(o) == IaInfo(o);
    ghost var written := IaInfo(o);
    assert o.addrs[0..] == o.addrs;
    var i := 0;
    while i < |o.addrs|
      invariant 0 <= i <= |o.addrs|
      invariant Holds(tmp, written) && |written| == at && at <= 12 + i * (size + 6)
      invariant IaInfo(o) + AddrInfos(o.kind, o.addrs) == written + AddrInfos(o.kind, o.addrs[i..])
    {
      var info := AddrInfo(o.kind, o.addrs[i]);
      InfoSizeIs(o.kind, o.addrs[i]);
      Fits(i, |o.addrs|, size + 6);
      assert o.addrs[i..][1..] == o.addrs[i + 1..];
      assert written + (info + AddrInfos(o.kind, o.addrs[i + 1..]))
             == written + info + AddrInfos(o.kind, o.addrs[i + 1..]);
      Extend(tmp, at, info, written);
      written := written + info;
      at := at + |info|;
      i := i + 1;
    }
    assert written + [] == written;
    HeldIs(tmp, written);
    ia := tmp[..at];
  }

  lemma NoneHeld(a: array<byte>)
    ensures Holds(a, [])
  {
  }

  lemma HeldIs(a: array<byte>, s: Octets)
    requires Holds(a, s)
    ensures |s| <= a.Length && a[..|s|] == s
  {
  }

  lemma Fits(i: nat, n: nat, size: nat)
    requires i < n
    ensures i * size + size <= n * size && (i + 1) * size == i * size + size
  {
    assert (i + 1) * size <= n * size;
  }

  method BuildNumbers(ns: seq<nat>) returns (v: Octets)
    ensures v == Numbers(ns)
  {
    hide Be2;
    v := [];
    var i := 0;
    assert ns[0..] == ns;
    while i < |ns|
      invariant 0 <= i <= |ns| && Numbers(ns) == v + Numbers(ns[i..])
    {
      assert ns[i..][1..] == ns[i + 1..];
      v := v + Be2(ns[i]);
      i := i + 1;
    }
  }

  method BuildIps(ips: seq<Octets>) returns (v: Octets)
    ensures v == Ips(ips)
  {
    v := [];
    var i := 0;
    assert ips[0..] == ips;
    while i < |ips|
      invariant 0 <= i <= |ips| && Ips(ips) == v + Ips(ips[i..])
    {
      assert ips[i..][1..] == ips[i + 1..];
      v := v + ips[i];
      i := i + 1;
    }
  }

  // Writes every option in turn; the length is exactly what was written, or -1 as soon as an
  // option does not fit. The status of an empty association stays with the sender's record.
  method SetOptions(mode: Mode, o: OptInfo, buf: array<byte>) returns (len: int, o1: OptInfo)
    requires forall i :: 0 <= i < |o.addrs| ==> |o.addrs[i].ip| == IP_SIZE
    modifies buf
    ensures var e := Encode(mode, o, buf.Length);
            if e.Some? then len == |e.value| && Holds(buf, e.value) && o1 == Completed(mode, o) else len == -1
  {
    hide Concat, IaInfo, AddrInfos, Numbers, Ips, Statuses, When, Holds, Be2, Repeat;
    NothingWritten(buf);
    var ok, p := PutFront(mode, o, buf);
    o1 := o;
    ghost var front := Front(mode, o);
    if !ok {
      Parts(mode, o, front);
      return -1, o1;
    }
    var ia := [];
    if o.iaid != 0 {
      ia := BuildIa(o);
      if o.addrs == [] && mode == ServerMode {
        o1 := o.(status := o.status + [if o.kind == IaPd then NOPREFIXAVAIL else NOADDRAVAIL]);
      }
    }
    ghost var piece := When(o.iaid != 0, IaType(o.kind), IaInfo(o) + AddrInfos(o.kind, o.addrs));
    assert When(o.iaid != 0, IaType(o.kind), ia)
           == piece by { WhenNot(o.iaid != 0, IaType(o.kind), ia, IaInfo(o) + AddrInfos(o.kind, o.addrs)); }
    ok, p := CopyOption(o.iaid != 0, IaType(o.kind), ia, p, buf, front);
    if !ok {
      Parts(mode, o, front + piece);
      return -1, o1;
    }
    ok, p := PutBack(mode, o, o1.status, p, buf, front + piece);
    return if ok then p else -1, o1;
  }

  lemma NothingWritten(buf: array<byte>)
    ensures Holds(buf, Concat([])) && |Concat([])| == 0
  {
  }

  lemma WhenNot(c: bool, t: nat, v: Octets, w: Octets)
    requires c ==> v == w
    ensures When(c, t, v) == When(c, t, w)
  {
  }

  // A part in front that does not fit means that the whole does not.
  lemma Parts(mode: Mode, o: OptInfo, part: seq<Opt>)
    requires part == Front(mode, o)
          || part == Front(mode, o) + When(o.iaid != 0, IaType(o.kind), IaInfo(o) + AddrInfos(o.kind, o.addrs))
    ensures |Concat(Options(mode, o))| >= |Concat(part)|
  {
    hide Concat, Front, Back, IaInfo, AddrInfos, When;
    var piece := When(o.iaid != 0, IaType(o.kind), IaInfo(o) + AddrInfos(o.kind, o.addrs));
    assert Front(mode, o) + (piece + Back(mode, o)) == Options(mode, o);
    Longer(Front(mode, o), piece + Back(mode, o));
    Longer(Front(mode, o) + piece, Back(mode, o));
  }

  method PutFront(mode: Mode, o: OptInfo, buf: array<byte>) returns (ok: bool, p: nat)
    requires Holds(buf, Concat([])) && |Concat([])| == 0
    modifies buf
    ensures ok == (|Concat(Front(mode, o))| <= buf.Length)
    ensures ok ==> Holds(buf, Concat(Front(mode, o))) && p == |Concat(Front(mode, o))|
  {
    hide Concat, When, Holds, Repeat;
    ghost var ids := Ids(mode, o);
    ghost var o4 := When(o.rapid, RAPID_COMMIT, []);
    ghost var o5 := When(mode == ServerMode && o.unicast && o.serverAddr != ANY, UNICAST, o.serverAddr);
    assert ids + (o4 + o5) == Front(mode, o) == ids + o4 + o5;
    Longer(ids, o4 + o5);
    Longer(ids + o4, o5);
    ok, p := PutIds(mode, o, buf);
    if !ok { return; }
    ok, p := CopyOption(o.rapid, RAPID_COMMIT, [], p, buf, ids);
    if !ok { return; }
    ok, p := CopyOption(mode == ServerMode && o.unicast && o.serverAddr != ANY, UNICAST, o.serverAddr, p, buf,
                        ids + o4);
  }

  method PutIds(mode: Mode, o: OptInfo, buf: array<byte>) returns (ok: bool, p: nat)
    requires Holds(buf, Concat([])) && |Concat([])| == 0
    modifies buf
    ensures ok == (|Concat(Ids(mode, o))| <= buf.Length)
    ensures ok ==> Holds(buf, Concat(Ids(mode, o))) && p == |Concat(Ids(mode, o))|
  {
    hide Concat, When, Holds, Be2;
    ghost var o1 := When(mode == ClientMode, ELAPSED_TIME, Be2(o.elapsed));
    ghost var o2 := When(o.clientId != [], CLIENTID, o.clientId);
    ghost var o3 := When(o.serverId != [], SERVERID, o.serverId);
    assert [] + o1 == o1 && o1 + (o2 + o3) == Ids(mode, o);
    Longer(o1, o2 + o3);
    Longer(o1 + o2, o3);
    ok, p := CopyOption(mode == ClientMode, ELAPSED_TIME, Be2(o.elapsed), 0, buf, []);
    if !ok { return; }
    ok, p := CopyOption(o.clientId != [], CLIENTID, o.clientId, p, buf, o1);
    if !ok { return; }
    ok, p := CopyOption(o.serverId != [], SERVERID, o.serverId, p, buf, o1 + o2);
  }

  method PutBack(mode: Mode, o: OptInfo, status: seq<nat>, at: nat, buf: array<byte>, ghost done: seq<Opt>)
    returns (ok: bool, p: nat)
    requires Holds(buf, Concat(done)) && |Concat(done)| == at && status == Completed(mode, o).status
    modifies buf
    ensures ok == (|Concat(done + Back(mode, o))| <= buf.Length)
    ensures ok ==> Holds(buf, Concat(done + Back(mode, o))) && p == |Concat(done + Back(mode, o))|
  {
    hide Concat, When, Holds, Statuses, Completed, Numbers, Ips;
    ghost var o1, o2 := When(mode == ServerMode && o.pref != 0, PREFERENCE, [o.pref % 256]), Statuses(status);
    ghost var o3, o4 := When(o.wanted != [], ORO, Numbers(o.wanted)), When(o.dns != [], DNS, Ips(o.dns));
    ghost var whole := done + Back(mode, o);
    assert done + o1 + (o2 + o3 + o4) == whole && done + o1 + o2 + (o3 + o4) == whole
           && done + o1 + o2 + o3 + o4 == whole;
    Longer(done + o1, o2 + o3 + o4);
    Longer(done + o1 + o2, o3 + o4);
    Longer(done + o1 + o2 + o3, o4);
    ok, p := CopyOption(mode == ServerMode && o.pref != 0, PREFERENCE, [o.pref % 256], at, buf, done);
    if !ok { return; }
    ok, p := CopyStatuses(status, p, buf, done + o1);
    if !ok { return; }
    var wanted := BuildNumbers(o.wanted);
    ok, p := CopyOption(o.wanted != [], ORO, wanted, p, buf, done + o1 + o2);
    if !ok { return; }
    var dns := BuildIps(o.dns);
    ok, p := CopyOption(o.dns != [], DNS, dns, p, buf, done + o1 + o2 + o3);
  }

  // ---------------------------------------------------------------------------
  // Reading from the message
  // ---------------------------------------------------------------------------

  method GetAddrs(kind: Kind, b: Octets, known: seq<Addr>) returns (r: Option<seq<Addr>>)
    ensures r == ReadAddrs(kind, b, known)
  {
    hide ReadAddr, Get2;
    var p, addrs := 0, known;
    assert b[0..] == b;
    while p + 4 <= |b|
      invariant 0 <= p <= |b| && ReadAddrs(kind, b, known) == ReadAddrs(kind, b[p..], addrs)
    {
      var len := Get2(b[p..][2..]);
      if |b| - p < 4 + len {
        return None;
      }
      var a := ReadAddr(kind, len, b[p..]);
      if a.None? {
        return None;
      }
      assert b[p..][4 + len..] == b[p + 4 + len..];
      var found := FindAddr(addrs, a.value);
      if !found {
        addrs := addrs + [a.value];
      }
      p := p + 4 + len;
    }
    return Some(addrs);
  }

  method FindAddr(addrs: seq<Addr>, a: Addr) returns (found: bool)
    ensures found == Known(addrs, a)
  {
    var i := 0;
    while i < |addrs|
      invariant 0 <= i <= |addrs|
      invariant forall j :: 0 <= j < i ==> !SameAddr(addrs[j], a)
    {
      if SameAddr(addrs[i], a) {
        return true;
      }
      i := i + 1;
    }
    return false;
  }

  method GetIa(o: OptInfo, kind: Kind, v: Octets) returns (r: Option<OptInfo>)
    ensures r == ReadIa(o, kind, v)
  {
    hide ReadAddrs, Get4;
    var fixed := if kind == IaTa then 4 else 12;
    if |v| < fixed {
      return None;
    }
    var o1 := o.(kind := kind, iaid := Get4(v));
    if kind == IaTa {
      o1 := o1.(tempAddrs := true);
    } else {
      o1 := o1.(renew := Get4(v[4..]), rebind := Get4(v[8..]));
    }
    var addrs := GetAddrs(kind, v[fixed..], o.addrs);
    return if addrs.None? then None else Some(o1.(addrs := addrs.value));
  }

  method GetNumbers(v: Octets, known: seq<nat>) returns (ns: seq<nat>)
    requires |v| % 2 == 0
    ensures ns == ReadNumbers(v, known)
  {
    hide Get2;
    ns := known;
    var p := 0;
    assert v[0..] == v;
    while p < |v|
      invariant 0 <= p <= |v| && p % 2 == 0 && ReadNumbers(v, known) == ReadNumbers(v[p..], ns)
    {
      var n := Get2(v[p..]);
      assert v[p..][2..] == v[p + 2..];
      if n !in ns {
        ns := ns + [n];
      }
      p := p + 2;
    }
  }

  method GetIps(v: Octets, known: seq<Octets>) returns (ips: seq<Octets>)
    requires |v| % IP_SIZE == 0
    ensures ips == ReadIps(v, known)
  {
    ips := known;
    var p := 0;
    assert v[0..] == v;
    while p < |v|
      invariant 0 <= p <= |v| && p % IP_SIZE == 0 && ReadIps(v, known) == ReadIps(v[p..], ips)
    {
      var ip := v[p..][..IP_SIZE];
      assert v[p..][IP_SIZE..] == v[p + IP_SIZE..];
      if ip !in ips {
        ips := ips + [ip];
      }
      p := p + IP_SIZE;
    }
  }

  // One option of a known type; the others are ignored.
  method GetOption(mode: Mode, o: OptInfo, t: nat, v: Octets) returns (r: Option<OptInfo>)
    ensures r == ReadOption(mode, o, t, v)
  {
    hide ReadIa, ReadNumbers, ReadIps, Get2;
    if t == IA_TA {
      r := GetIa(o, IaTa, v);
    } else if t == IA_NA {
      r := GetIa(o, IaNa, v);
    } else if t == IA_PD {
      r := GetIa(o, IaPd, v);
    } else if t == ORO && v != [] && |v| % 2 == 0 {
      var ns := GetNumbers(v, o.wanted);
      r := Some(o.(wanted := ns));
    } else if t == DNS && v != [] && |v| % IP_SIZE == 0 {
      var ips := GetIps(v, o.dns);
      r := Some(o.(dns := ips));
    } else {
      r := ReadOption(mode, o, t, v);
    }
  }

  method GetOptions(mode: Mode, b: Octets, o: OptInfo) returns (r: Option<OptInfo>)
    ensures r == Decode(mode, b, o)
  {
    hide ReadOption, Get2;
    var p, info := 0, o;
    assert b[0..] == b;
    while p + 4 <= |b|
      invariant 0 <= p <= |b| && Decode(mode, b, o) == Decode(mode, b[p..], info)
    {
      var rest := b[p..];
      var t, len := Get2(rest), Get2(rest[2..]);
      if |rest| < 4 + len {
        return None;
      }
      var r1 := GetOption(mode, info, t, rest[4..4 + len]);
      if r1.None? {
        return None;
      }
      assert rest[4 + len..] == b[p + 4 + len..];
      info := r1.value;
      p := p + 4 + len;
    }
    return Some(info);
  }
}
