/** Bindings, leases and their timers on a DHCPv6 server. Records are named by numbers that are
    not used again, so a stale pointer would be a name that is no longer in its map. The two hash
    tables appear as the maps they refine. */
module DhcpLeases {
  import opened Bytes
  import opened DhcpTimers

  // ---------------------------------------------------------------------------
  // Addresses and keys
  // ---------------------------------------------------------------------------

  datatype Kind = IaNa | IaTa | IaPd

  const IP_SIZE := 16

  // An address or prefix of a message or a lease. Lifetimes are 32-bit.
  datatype Addr = Addr(kind: Kind, ip: Octets, plen: nat, prefer: nat, valid: nat, status: nat)

  const SUCCESS := 0
  const UNDEFINED := 0xffff
  const INFINITE := 0xffffffff
  const WORD := 0x1_0000_0000

  // The comparison of the lease table: the type that counts is the one in the key asked for, not
  // the one in the lease.
  predicate LeaseMatch(own: Addr, key: Addr) {
    own.ip == key.ip && (key.kind == IaPd ==> own.plen == key.plen)
  }

  type Key = (Octets, nat)

  predicate IsPrefix(a: Addr) {
    a.kind == IaPd
  }

  // Among prefixes the comparison is an equality of address and length, and among addresses, be
  // they temporary or not, of the address.
  function KeyOf(a: Addr): Key {
    (a.ip, if IsPrefix(a) then a.plen else 0)
  }

  lemma SortIsCoherent(own: Addr, key: Addr)
    requires own.ip == key.ip ==> IsPrefix(own) == IsPrefix(key)
    ensures LeaseMatch(own, key) <==> KeyOf(own) == KeyOf(key)
  {
  }

  // A division of all addresses into those that stand for prefixes and the others.
  type Sorting = Octets -> bool

  predicate InSort(prefixes: Sorting, a: Addr) {
    IsPrefix(a) == prefixes(a.ip)
  }

  // The comparison of addresses of these types is the equality of a canonical form.
  ghost predicate Names<C(!new)>(kinds: set<Kind>, canon: Addr -> C) {
    forall own: Addr, key: Addr :: own.kind in kinds && key.kind in kinds && |own.ip| == |key.ip| == IP_SIZE ==>
      (LeaseMatch(own, key) <==> canon(own) == canon(key))
  }

  predicate Mixed(kinds: set<Kind>) {
    IaPd in kinds && (IaNa in kinds || IaTa in kinds)
  }

  // It is not when prefixes come with addresses: two prefixes of one address that differ in
  // length do not match each other, and the address matches both.
  lemma MixedTypesHaveNoName<C(!new)>(kinds: set<Kind>, canon: Addr -> C)
    requires Mixed(kinds)
    ensures !Names(kinds, canon)
  {
    var ip, kind := Repeat(0, IP_SIZE), if IaNa in kinds then IaNa else IaTa;
    var p, q, a := Addr(IaPd, ip, 48, 0, 0, 0), Addr(IaPd, ip, 56, 0, 0, 0), Addr(kind, ip, 0, 0, 0, 0);
    assert LeaseMatch(p, a) && LeaseMatch(q, a) && !LeaseMatch(p, q);
  }

  // And otherwise it is.
  lemma NamedExactly(kinds: set<Kind>)
    ensures (exists canon: Addr -> Key :: Names(kinds, canon)) <==> !Mixed(kinds)
  {
    if Mixed(kinds) {
      forall canon: Addr -> Key ensures !Names(kinds, canon) {
        MixedTypesHaveNoName(kinds, canon);
      }
    } else {
      assert Names(kinds, a => KeyOf(a));
    }
  }

  // A reply makes or renews a lease only with a good status and lifetimes that are not zero.
  predicate Good(a: Addr) {
    (a.status == SUCCESS || a.status == UNDEFINED) && a.valid != 0 && a.prefer != 0
  }

  predicate Infinite(a: Addr) {
    a.valid == INFINITE || a.prefer == INFINITE
  }

  // ---------------------------------------------------------------------------
  // The database
  // ---------------------------------------------------------------------------

  datatype State = Active | Expired

  datatype Lease = Lease(addr: Addr, state: State, timer: Option<nat>, binding: nat)

  datatype Client = Client(duid: Octets, kind: Kind, iaid: nat)

  datatype Binding = Binding(client: Client, timer: Option<nat>, list: seq<nat>)

  datatype Owner = OfLease(l: nat) | OfBinding(b: nat)

  // wild records that a callback was run on a record that had been freed.
  datatype Db = Db(
    leases: map<nat, Lease>, bindings: map<nat, Binding>,
    leaseTable: map<Key, nat>, bindingTable: map<Client, nat>,
    timers: TimerList<Owner>, next: nat, wild: bool)

  function NewDb(): Db {
    Db(map[], map[], map[], map[], NewList(), 0, false)
  }

  // ---------------------------------------------------------------------------
  // Leases
  // ---------------------------------------------------------------------------

  function After(now: Time, seconds: nat): Time {
    TimeAdd(now, Time(seconds, 0))
  }

  // (Re)starts a lease's timer with its preferred lifetime; an infinite lease is left alone.
  function ArmLease(db: Db, l: nat, now: Time): Db
    requires l in db.leases
  {
    var lease := db.leases[l];
    if Infinite(lease.addr) then db
    else
      var (tl, t) := if lease.timer.Some? then (db.timers, lease.timer.value)
          else (AddTimer(db.timers, OfLease(l)), db.timers.next);
      db.(timers := SetTimer(tl, t, After(now, lease.addr.prefer)), leases := db.leases[l := lease.(timer := Some(t))])
  }

  function AddLease(db: Db, b: nat, a: Addr, now: Time): Db
    requires b in db.bindings
  {
    if !Good(a) || KeyOf(a) in db.leaseTable then db
    else
      var l, binding := db.next, db.bindings[b];
      ArmLease(db.(leases := db.leases[l := Lease(a, Active, None, b)],
                   leaseTable := db.leaseTable[KeyOf(a) := l],
                   bindings := db.bindings[b := binding.(list := binding.list + [l])],
                   next := l + 1), l, now)
  }

  function Disarm(db: Db, timer: Option<nat>): TimerList<Owner> {
    if timer.Some? then RemoveTimer(db.timers, timer.value) else db.timers
  }

  // Takes the lease out of the table and off its binding's list, and frees it.
  function RemoveLease(db: Db, l: nat): Db
    requires l in db.leases
  {
    var lease := db.leases[l];
    if KeyOf(lease.addr) !in db.leaseTable || lease.binding !in db.bindings then db
    else
      var binding := db.bindings[lease.binding];
      db.(timers := Disarm(db, lease.timer), leaseTable := db.leaseTable - {KeyOf(lease.addr)},
          bindings := db.bindings[lease.binding := binding.(list := Without(binding.list, l))],
          leases := db.leases - {l})
  }

  function UpdateLease(db: Db, l: nat, a: Addr, now: Time): Db
    requires l in db.leases
  {
    if !Good(a) then RemoveLease(db, l)
    else ArmLease(db.(leases := db.leases[l := db.leases[l].(addr := a, state := Active)]), l, now)
  }

  // ---------------------------------------------------------------------------
  // Bindings
  // ---------------------------------------------------------------------------

  // The first lease of the list with the key.
  function FindIn(db: Db, list: seq<nat>, k: Key): Option<nat> {
    if list == [] then None
    else if list[0] in db.leases && KeyOf(db.leases[list[0]].addr) == k then Some(list[0])
    else FindIn(db, list[1..], k)
  }

  function FindLease(db: Db, b: nat, a: Addr): Option<nat>
    requires b in db.bindings
  {
    FindIn(db, db.bindings[b].list, KeyOf(a))
  }

  function MaxValid(db: Db, list: seq<nat>): nat {
    if list == [] then 0
    else
      var v, m := if list[0] in db.leases then db.leases[list[0]].addr.valid else 0, MaxValid(db, list[1..]);
      if v > m then v else m
  }

  function ArmBinding(db: Db, b: nat, now: Time): Db
    requires b in db.bindings
  {
    var binding := db.bindings[b];
    var (tl, t) := if binding.timer.Some? then (db.timers, binding.timer.value)
        else (AddTimer(db.timers, OfBinding(b)), db.timers.next);
    db.(timers := SetTimer(tl, t, After(now, MaxValid(db, binding.list))),
        bindings := db.bindings[b := binding.(timer := Some(t))])
  }

  // The leases on the list as it was when the walk began.
  function RemoveAll(db: Db, list: seq<nat>): Db
    decreases |list|
  {
    if list == [] then db
    else RemoveAll(if list[0] in db.leases then RemoveLease(db, list[0]) else db, list[1..])
  }

  // The table entry goes by the binding's key, whichever record it leads to.
  function DropBinding(db: Db, b: nat): Db
    requires b in db.bindings
  {
    var binding := db.bindings[b];
    if binding.client !in db.bindingTable then db
    else db.(bindingTable := db.bindingTable - {binding.client}, timers := Disarm(db, binding.timer),
             bindings := db.bindings - {b})
  }

  function RemoveBinding(db: Db, b: nat): Db
    requires b in db.bindings
  {
    var db1 := RemoveAll(db, db.bindings[b].list);
    if b in db1.bindings then DropBinding(db1, b) else db1
  }

  function AddAll(db: Db, b: nat, infos: seq<Addr>, now: Time): Db
    requires b in db.bindings
    decreases |infos|
  {
    if infos == [] then db
    else
      var db1 := AddLease(db, b, infos[0], now);
      if b in db1.bindings then AddAll(db1, b, infos[1..], now) else db1
  }

  // For a request. A record that got no lease is forgotten; one whose key is taken is undone.
  function AddBinding(db: Db, client: Client, infos: seq<Addr>, now: Time): Db {
    var b := db.next;
    var db1 := AddAll(db.(bindings := db.bindings[b := Binding(client, None, [])], next := b + 1), b, infos, now);
    if b !in db1.bindings then db1
    else if db1.bindings[b].list == [] then db1.(bindings := db1.bindings - {b})
    else if client in db1.bindingTable then RemoveBinding(db1, b)
    else ArmBinding(db1.(bindingTable := db1.bindingTable[client := b]), b, now)
  }

  function UpdateOne(db: Db, b: nat, a: Addr, now: Time): Db
    requires b in db.bindings
  {
    var found := FindLease(db, b, a);
    if found.Some? && found.value in db.leases then UpdateLease(db, found.value, a, now) else AddLease(db, b, a, now)
  }

  function UpdateAll(db: Db, b: nat, infos: seq<Addr>, now: Time): Db
    requires b in db.bindings
    decreases |infos|
  {
    if infos == [] then db
    else
      var db1 := UpdateOne(db, b, infos[0], now);
      if b in db1.bindings then UpdateAll(db1, b, infos[1..], now) else db1
  }

  predicate Listed(infos: seq<Addr>, a: Addr) {
    exists i :: 0 <= i < |infos| && KeyOf(infos[i]) == KeyOf(a)
  }

  // Leases not on the reply list go.
  function Prune(db: Db, list: seq<nat>, infos: seq<Addr>): Db
    decreases |list|
  {
    if list == [] then db
    else Prune(if list[0] in db.leases && !Listed(infos, db.leases[list[0]].addr) then RemoveLease(db, list[0]) else db,
               list[1..], infos)
  }

  function ReleaseAll(db: Db, b: nat, infos: seq<Addr>): Db
    requires b in db.bindings
    decreases |infos|
  {
    if infos == [] then db
    else
      var found := FindLease(db, b, infos[0]);
      var db1 := if found.Some? && found.value in db.leases then RemoveLease(db, found.value) else db;
      if b in db1.bindings then ReleaseAll(db1, b, infos[1..]) else db1
  }

  // A binding without leases is removed; otherwise its timer is restarted.
  function Settle(db: Db, b: nat, now: Time): Db
    requires b in db.bindings
  {
    if db.bindings[b].list == [] then RemoveBinding(db, b) else ArmBinding(db, b, now)
  }

  // For renew and rebind, or for release and decline.
  function UpdateBinding(db: Db, client: Client, infos: seq<Addr>, update: bool, now: Time): Db {
    if client !in db.bindingTable || db.bindingTable[client] !in db.bindings then db
    else
      var b := db.bindingTable[client];
      var db1 := if update then UpdateAll(db, b, infos, now) else ReleaseAll(db, b, infos);
      if b !in db1.bindings then db1
      else
        var db2 := if update then Prune(db1, db1.bindings[b].list, infos) else db1;
        if b in db2.bindings then Settle(db2, b, now) else db2
  }

  // ---------------------------------------------------------------------------
  // Expiry
  // ---------------------------------------------------------------------------

  // What is left of the valid lifetime when the preferred one is over, in 32 bits.
  function Remaining(a: Addr): nat {
    (a.valid - a.prefer) % WORD
  }

  // First the preferred lifetime runs out, then the rest of the valid one, and the lease goes.
  function LeaseTimeout(db: Db, l: nat, now: Time): (Db, bool) {
    if l !in db.leases then (db.(wild := true), false)
    else
      var lease := db.leases[l];
      if lease.state == Expired then (RemoveLease(db, l), false)
      else
        var db1 := db.(leases := db.leases[l := lease.(state := Expired)]);
        (if lease.timer.Some? then
           db1.(timers := SetTimer(db.timers, lease.timer.value, After(now, Remaining(lease.addr))))
         else db1, lease.timer.Some?)
  }

  function BindingTimeout(db: Db, b: nat): (Db, bool) {
    if b !in db.bindings then (db.(wild := true), false) else (RemoveBinding(db, b), false)
  }

  function Fire(db: Db, owner: Owner, now: Time): (Db, bool) {
    match owner
    case OfLease(l) => LeaseTimeout(db, l, now)
    case OfBinding(b) => BindingTimeout(db, b)
  }
}
