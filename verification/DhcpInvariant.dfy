/** What every operation on the lease database keeps, and what it does to who holds which address. */
module DhcpInvariant {
  import opened Bytes
  import opened DhcpTimers
  import opened DhcpLeases

  // ---------------------------------------------------------------------------
  // The invariant
  // ---------------------------------------------------------------------------

  // A lease is on the list of its binding, once, and lists hold nothing else.
  ghost predicate On(bindings: map<nat, Binding>, b: nat, l: nat) {
    b in bindings && l in bindings[b].list
  }

  ghost predicate Listing(leases: map<nat, Lease>, bindings: map<nat, Binding>) {
    && (forall l :: l in leases ==> On(bindings, leases[l].binding, l))
    && (forall b, l :: On(bindings, b, l) ==> l in leases && leases[l].binding == b)
    && (forall b :: b in bindings ==> Distinct(bindings[b].list))
  }

  // The lease table leads to every live lease by its key, and nowhere else.
  ghost predicate Indexed(leases: map<nat, Lease>, table: map<Key, nat>) {
    && (forall k :: k in table ==> table[k] in leases && KeyOf(leases[table[k]].addr) == k)
    && (forall l :: l in leases ==> KeyOf(leases[l].addr) in table && table[KeyOf(leases[l].addr)] == l)
  }

  // The same for bindings, except those still under construction.
  ghost predicate Registered(bindings: map<nat, Binding>, table: map<Client, nat>, loose: set<nat>) {
    && (forall c :: c in table ==> table[c] in bindings && table[c] !in loose && bindings[table[c]].client == c)
    && (forall b :: b in bindings && b !in loose ==> bindings[b].client in table && table[bindings[b].client] == b)
  }

  // A record's timer is unmarked and points back at it.
  ghost predicate Points(tl: TimerList<Owner>, t: nat, owner: Owner) {
    t in tl.recs && !tl.recs[t].marked && tl.recs[t].owner == owner
  }

  ghost predicate Timed(leases: map<nat, Lease>, bindings: map<nat, Binding>, tl: TimerList<Owner>) {
    && WellFormed(tl)
    && (forall l :: l in leases && leases[l].timer.Some? ==> Points(tl, leases[l].timer.value, OfLease(l)))
    && (forall b :: b in bindings && bindings[b].timer.Some? ==> Points(tl, bindings[b].timer.value, OfBinding(b)))
    && (forall t :: t in tl.recs && !tl.recs[t].marked ==> Pointed(leases, bindings, tl.recs[t].owner, t))
  }

  // An unmarked timer belongs to a live record whose timer it is.
  ghost predicate Pointed(leases: map<nat, Lease>, bindings: map<nat, Binding>, owner: Owner, t: nat) {
    match owner
    case OfLease(l) => l in leases && leases[l].timer == Some(t)
    case OfBinding(b) => b in bindings && bindings[b].timer == Some(t)
  }

  ghost predicate Fresh(db: Db) {
    (forall l :: l in db.leases ==> l < db.next) && (forall b :: b in db.bindings ==> b < db.next)
  }

  ghost predicate InvBut(db: Db, loose: set<nat>) {
    && Listing(db.leases, db.bindings)
    && Indexed(db.leases, db.leaseTable)
    && Registered(db.bindings, db.bindingTable, loose)
    && Timed(db.leases, db.bindings, db.timers)
    && Fresh(db)
    && !db.wild
  }

  // In every reachable state.
  ghost predicate Inv(db: Db) {
    InvBut(db, {}) && forall b :: b in db.bindings ==> db.bindings[b].timer.Some?
  }

  lemma InvImplies(db: Db)
    requires Inv(db)
    ensures InvBut(db, {})
  {
  }

  // No address is leased to two bindings.
  lemma NoAddressTwice(db: Db, l1: nat, l2: nat)
    requires Inv(db) && l1 in db.leases && l2 in db.leases && KeyOf(db.leases[l1].addr) == KeyOf(db.leases[l2].addr)
    ensures l1 == l2 && db.leases[l1].binding == db.leases[l2].binding
  {
  }

  // ---------------------------------------------------------------------------
  // Who holds what
  // ---------------------------------------------------------------------------

  datatype Held = Held(binding: nat, addr: Addr)

  function Holder(db: Db, k: Key): Option<Held> {
    if k in db.leaseTable && db.leaseTable[k] in db.leases then
      var lease := db.leases[db.leaseTable[k]];
      Some(Held(lease.binding, lease.addr))
    else None
  }

  // ---------------------------------------------------------------------------
  // Timers
  // ---------------------------------------------------------------------------

  // Marking a record's own timer, or dropping a record that has none.
  lemma DisarmLease(db: Db, l: nat)
    requires Timed(db.leases, db.bindings, db.timers) && l in db.leases
    ensures Timed(db.leases - {l}, db.bindings, Disarm(db, db.leases[l].timer))
  {
    RemoveKeeps(db.timers, if db.leases[l].timer.Some? then db.leases[l].timer.value else 0);
    hide WellFormed;
  }

  lemma DisarmBinding(db: Db, b: nat)
    requires Timed(db.leases, db.bindings, db.timers) && b in db.bindings
    ensures Timed(db.leases, db.bindings - {b}, Disarm(db, db.bindings[b].timer))
  {
    RemoveKeeps(db.timers, if db.bindings[b].timer.Some? then db.bindings[b].timer.value else 0);
    hide WellFormed;
  }

  lemma RemoveKeeps(tl: TimerList<Owner>, t: nat)
    ensures WellFormed(tl) ==> WellFormed(RemoveTimer(tl, t))
  {
    RemoveEvolves(tl, t);
    hide WellFormed;
  }

  lemma SetKeeps(tl: TimerList<Owner>, t: nat, due: Time)
    ensures WellFormed(tl) ==> WellFormed(SetTimer(tl, t, due))
  {
  }

  lemma AddKeeps(tl: TimerList<Owner>, owner: Owner)
    requires WellFormed(tl)
    ensures WellFormed(AddTimer(tl, owner)) && tl.next !in tl.recs
  {
    AddEvolves(tl, owner);
    hide Distinct;
  }

  // ---------------------------------------------------------------------------
  // One lease removed
  // ---------------------------------------------------------------------------

  // Bindings that differ at most in their lists.
  ghost predicate Alike(a: map<nat, Binding>, b: map<nat, Binding>) {
    a.Keys == b.Keys && forall x :: x in a ==> b[x].client == a[x].client && b[x].timer == a[x].timer
  }

  lemma AlikeKeeps(a: map<nat, Binding>, b: map<nat, Binding>, leases: map<nat, Lease>, tl: TimerList<Owner>,
                   table: map<Client, nat>, loose: set<nat>)
    requires Alike(a, b)
    ensures a.Keys == b.Keys
    ensures Registered(a, table, loose) ==> Registered(b, table, loose)
    ensures Timed(leases, a, tl) ==> Timed(leases, b, tl)
  {
    hide WellFormed;
  }

  lemma RemoveListing(leases: map<nat, Lease>, bindings: map<nat, Binding>, l: nat)
    requires Listing(leases, bindings) && l in leases
    ensures var b := leases[l].binding;
            var bindings1 := bindings[b := bindings[b].(list := Without(bindings[b].list, l))];
            Listing(leases - {l}, bindings1) && Alike(bindings, bindings1)
  {
    hide Without, Distinct, On;
    var b, leases1 := leases[l].binding, leases - {l};
    assert b in bindings by { OnMeans(bindings, b, l); }
    var bindings1 := bindings[b := bindings[b].(list := Without(bindings[b].list, l))];
    WithoutGives(bindings[b].list, l);
    forall y, x ensures On(bindings1, y, x) <==> On(bindings, y, x) && (y != b || x != l) {
      OnMeans(bindings1, y, x);
      OnMeans(bindings, y, x);
    }
  }

  lemma OnMeans(bindings: map<nat, Binding>, b: nat, l: nat)
    ensures On(bindings, b, l) <==> b in bindings && l in bindings[b].list
  {
  }

  lemma LeaseKnown(db: Db, l: nat, loose: set<nat>)
    requires InvBut(db, loose) && l in db.leases
    ensures var lease := db.leases[l];
            lease.binding in db.bindings && KeyOf(lease.addr) in db.leaseTable && db.leaseTable[KeyOf(lease.addr)] == l
  {
    hide Registered, Timed;
  }

  lemma RemoveIndexed(leases: map<nat, Lease>, table: map<Key, nat>, l: nat)
    requires Indexed(leases, table) && l in leases
    ensures Indexed(leases - {l}, table - {KeyOf(leases[l].addr)})
  {
  }

  // What an operation may not touch: other bindings, and leases that are not those of b.
  ghost predicate OthersKept(db: Db, db1: Db, b: nat) {
    && db1.bindings.Keys == db.bindings.Keys
    && (forall x :: x in db.bindings && x != b ==> db1.bindings[x] == db.bindings[x])
    && (b in db.bindings ==>
          db1.bindings[b].client == db.bindings[b].client && db1.bindings[b].timer == db.bindings[b].timer)
    && db1.bindingTable == db.bindingTable
  }

  lemma RemoveLeaseKeeps(db: Db, l: nat, loose: set<nat>)
    requires InvBut(db, loose) && l in db.leases
    ensures var db1, b := RemoveLease(db, l), db.leases[l].binding;
            && InvBut(db1, loose) && OthersKept(db, db1, b)
            && db1.leases == db.leases - {l} && db1.bindings[b].list == Without(db.bindings[b].list, l)
  {
    hide Listing, Indexed, Registered, Timed, Without, Disarm, Alike;
    LeaseKnown(db, l, loose);
    var b := db.leases[l].binding;
    var bindings1 := db.bindings[b := db.bindings[b].(list := Without(db.bindings[b].list, l))];
    RemoveListing(db.leases, db.bindings, l);
    RemoveIndexed(db.leases, db.leaseTable, l);
    DisarmLease(db, l);
    AlikeKeeps(db.bindings, bindings1, db.leases - {l}, Disarm(db, db.leases[l].timer), db.bindingTable, loose);
    AlikeKeeps(db.bindings, bindings1, db.leases, db.timers, db.bindingTable, loose);
  }

  lemma RemoveLeaseFrees(db: Db, l: nat, loose: set<nat>, k: Key)
    requires InvBut(db, loose) && l in db.leases
    ensures Holder(RemoveLease(db, l), k) == if k == KeyOf(db.leases[l].addr) then None else Holder(db, k)
  {
    hide Registered, Timed, Listing, Without, Disarm;
    LeaseKnown(db, l, loose);
  }

  // ---------------------------------------------------------------------------
  // One lease added
  // ---------------------------------------------------------------------------

  lemma AddListing(leases: map<nat, Lease>, bindings: map<nat, Binding>, l: nat, lease: Lease)
    requires Listing(leases, bindings) && l !in leases && lease.binding in bindings
    ensures var b := lease.binding;
            var bindings1 := bindings[b := bindings[b].(list := bindings[b].list + [l])];
            Listing(leases[l := lease], bindings1) && Alike(bindings, bindings1)
  {
    hide On;
    var b := lease.binding;
    var bindings1 := bindings[b := bindings[b].(list := bindings[b].list + [l])];
    OnMeans(bindings, b, l);
    assert l !in bindings[b].list;
    forall y, x ensures On(bindings1, y, x) <==> On(bindings, y, x) || (y == b && x == l) {
      OnMeans(bindings1, y, x);
      OnMeans(bindings, y, x);
    }
  }

  lemma AddIndexed(leases: map<nat, Lease>, table: map<Key, nat>, l: nat, lease: Lease)
    requires Indexed(leases, table) && l !in leases && KeyOf(lease.addr) !in table
    ensures Indexed(leases[l := lease], table[KeyOf(lease.addr) := l])
  {
  }

  lemma AddTimed(leases: map<nat, Lease>, bindings: map<nat, Binding>, tl: TimerList<Owner>, l: nat, lease: Lease)
    requires Timed(leases, bindings, tl) && l !in leases && lease.timer.None?
    ensures Timed(leases[l := lease], bindings, tl)
  {
    hide WellFormed;
  }

  // Same leases but for a timer.
  ghost predicate Retimed(a: map<nat, Lease>, b: map<nat, Lease>) {
    a.Keys == b.Keys && forall l :: l in a ==> b[l] == a[l].(timer := b[l].timer)
  }

  lemma RetimedKeeps(a: map<nat, Lease>, b: map<nat, Lease>, bindings: map<nat, Binding>, table: map<Key, nat>)
    requires Retimed(a, b)
    ensures a.Keys == b.Keys
    ensures Listing(a, bindings) ==> Listing(b, bindings)
    ensures Indexed(a, table) ==> Indexed(b, table)
  {
    hide Distinct;
  }

  // A record's own timer is set, or a new one made for it.
  lemma ArmLeaseTimed(db: Db, l: nat, now: Time)
    requires Timed(db.leases, db.bindings, db.timers) && l in db.leases
    ensures var db1 := ArmLease(db, l, now);
            && Timed(db1.leases, db1.bindings, db1.timers) && Retimed(db.leases, db1.leases)
            && db1 == db.(leases := db1.leases, timers := db1.timers)
            && (Infinite(db.leases[l].addr) ==> db1 == db)
  {
    hide WellFormed, After, AddTimer, SetTimer;
    var lease := db.leases[l];
    if !Infinite(lease.addr) {
      var due := After(now, lease.addr.prefer);
      if lease.timer.Some? {
        SetTimed(db.leases, db.bindings, db.timers, lease.timer.value, due);
        assert db.leases[l := lease.(timer := lease.timer)] == db.leases;
      } else {
        NewTimed(db.leases, db.bindings, db.timers, OfLease(l));
        var tl, t := AddTimer(db.timers, OfLease(l)), db.timers.next;
        var leases1 := db.leases[l := lease.(timer := Some(t))];
        SetTimed(leases1, db.bindings, tl, t, due);
      }
    }
  }

  lemma SetTimed(leases: map<nat, Lease>, bindings: map<nat, Binding>, tl: TimerList<Owner>, t: nat, due: Time)
    requires Timed(leases, bindings, tl)
    ensures Timed(leases, bindings, SetTimer(tl, t, due))
  {
    SetKeeps(tl, t, due);
    hide WellFormed;
  }

  // A new timer for a record that had none, recorded there.
  lemma NewTimed(leases: map<nat, Lease>, bindings: map<nat, Binding>, tl: TimerList<Owner>, owner: Owner)
    requires Timed(leases, bindings, tl)
    ensures owner.OfLease? && owner.l in leases && leases[owner.l].timer.None? ==>
              Timed(leases[owner.l := leases[owner.l].(timer := Some(tl.next))], bindings, AddTimer(tl, owner))
    ensures owner.OfBinding? && owner.b in bindings && bindings[owner.b].timer.None? ==>
              Timed(leases, bindings[owner.b := bindings[owner.b].(timer := Some(tl.next))], AddTimer(tl, owner))
  {
    AddKeeps(tl, owner);
    hide WellFormed;
  }

  lemma AddLeaseKeeps(db: Db, b: nat, a: Addr, now: Time, loose: set<nat>)
    requires InvBut(db, loose) && b in db.bindings
    ensures var db1 := AddLease(db, b, a, now); InvBut(db1, loose) && OthersKept(db, db1, b)
  {
    hide Listing, Indexed, Registered, Timed, ArmLease, Alike, Retimed;
    if Good(a) && KeyOf(a) !in db.leaseTable {
      var l, lease := db.next, Lease(a, Active, None, b);
      var bindings1 := db.bindings[b := db.bindings[b].(list := db.bindings[b].list + [l])];
      AddListing(db.leases, db.bindings, l, lease);
      AddIndexed(db.leases, db.leaseTable, l, lease);
      AddTimed(db.leases, db.bindings, db.timers, l, lease);
      AlikeKeeps(db.bindings, bindings1, db.leases[l := lease], db.timers, db.bindingTable, loose);
      AlikeKeeps(db.bindings, bindings1, db.leases, db.timers, db.bindingTable, loose);
      var db0 := db.(leases := db.leases[l := lease], leaseTable := db.leaseTable[KeyOf(a) := l], bindings := bindings1,
                     next := l + 1);
      ArmLeaseTimed(db0, l, now);
      RetimedKeeps(db0.leases, ArmLease(db0, l, now).leases, bindings1, db0.leaseTable);
    }
  }

  lemma AddLeaseHolds(db: Db, b: nat, a: Addr, now: Time, loose: set<nat>, k: Key)
    requires InvBut(db, loose) && b in db.bindings
    ensures Holder(AddLease(db, b, a, now), k)
         == if Good(a) && KeyOf(a) !in db.leaseTable && k == KeyOf(a) then Some(Held(b, a)) else Holder(db, k)
  {
    hide Registered, Timed, Listing, AddTimer, SetTimer, After;
  }

  // ---------------------------------------------------------------------------
  // One lease updated
  // ---------------------------------------------------------------------------

  lemma ChangeLease(db: Db, l: nat, a: Addr)
    requires l in db.leases && KeyOf(a) == KeyOf(db.leases[l].addr)
    ensures var leases1 := db.leases[l := db.leases[l].(addr := a, state := Active)];
            && (Listing(db.leases, db.bindings) ==> Listing(leases1, db.bindings))
            && (Indexed(db.leases, db.leaseTable) ==> Indexed(leases1, db.leaseTable))
            && (Timed(db.leases, db.bindings, db.timers) ==> Timed(leases1, db.bindings, db.timers))
  {
    hide WellFormed, Distinct;
  }

  lemma UpdateLeaseKeeps(db: Db, l: nat, a: Addr, now: Time, loose: set<nat>)
    requires InvBut(db, loose) && l in db.leases && KeyOf(a) == KeyOf(db.leases[l].addr)
    ensures var db1 := UpdateLease(db, l, a, now); InvBut(db1, loose) && OthersKept(db, db1, db.leases[l].binding)
  {
    hide Listing, Indexed, Registered, Timed, ArmLease, RemoveLease, Retimed;
    if Good(a) {
      var db0 := db.(leases := db.leases[l := db.leases[l].(addr := a, state := Active)]);
      ChangeLease(db, l, a);
      ArmLeaseTimed(db0, l, now);
      RetimedKeeps(db0.leases, ArmLease(db0, l, now).leases, db.bindings, db.leaseTable);
    } else {
      RemoveLeaseKeeps(db, l, loose);
    }
  }

  lemma UpdateLeaseHolds(db: Db, l: nat, a: Addr, now: Time, loose: set<nat>, k: Key)
    requires InvBut(db, loose) && l in db.leases && KeyOf(a) == KeyOf(db.leases[l].addr)
    ensures Holder(UpdateLease(db, l, a, now), k)
         == if k != KeyOf(a) then Holder(db, k) else if Good(a) then Some(Held(db.leases[l].binding, a)) else None
  {
    if !Good(a) {
      RemoveLeaseFrees(db, l, loose, k);
    }
    hide Registered, Timed, Listing, AddTimer, SetTimer, After, RemoveLease;
  }
}
