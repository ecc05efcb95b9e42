/** The operations on whole bindings: what they keep, and exactly which addresses are held by whom
    afterwards. */
module DhcpBindings {
  import opened Bytes
  import opened DhcpTimers
  import opened DhcpLeases
  import opened DhcpInvariant

  // ---------------------------------------------------------------------------
  // Finding a lease
  // ---------------------------------------------------------------------------

  ghost predicate HeldBy(db: Db, k: Key, b: nat) {
    Holder(db, k).Some? && Holder(db, k).value.binding == b
  }

  lemma {:induction false} FindGives(db: Db, list: seq<nat>, k: Key)
    ensures var r := FindIn(db, list, k);
            if r.Some? then r.value in list && r.value in db.leases && KeyOf(db.leases[r.value].addr) == k
            else forall l :: l in list && l in db.leases ==> KeyOf(db.leases[l].addr) != k
  {
    if list != [] {
      FindGives(db, list[1..], k);
      assert list == [list[0]] + list[1..];
    }
  }

  // The walk over the binding's list finds what the table would, when the binding holds it.
  lemma FindIsHolder(db: Db, b: nat, a: Addr, loose: set<nat>)
    requires InvBut(db, loose) && b in db.bindings
    ensures var r := FindLease(db, b, a);
            && (r.Some? <==> HeldBy(db, KeyOf(a), b))
            && (r.Some? ==>
                  r.value in db.leases && db.leases[r.value].binding == b && KeyOf(db.leases[r.value].addr) == KeyOf(a)
                            && db.leaseTable[KeyOf(a)] == r.value)
            && (r.None? && KeyOf(a) in db.leaseTable ==> Holder(db, KeyOf(a)).Some?)
            && (KeyOf(a) !in db.leaseTable ==> Holder(db, KeyOf(a)).None?)
  {
    hide Registered, Timed, FindIn;
    FindGives(db, db.bindings[b].list, KeyOf(a));
    var k := KeyOf(a);
    if k in db.leaseTable {
      var l := db.leaseTable[k];
      assert On(db.bindings, db.leases[l].binding, l);
    }
    var r := FindLease(db, b, a);
    if r.Some? {
      assert On(db.bindings, b, r.value);
    }
  }

  // ---------------------------------------------------------------------------
  // Renewing
  // ---------------------------------------------------------------------------

  function LastFor(infos: seq<Addr>, k: Key): Option<Addr> {
    if infos == [] then None
    else if LastFor(infos[1..], k).Some? then LastFor(infos[1..], k)
    else if KeyOf(infos[0]) == k then Some(infos[0]) else None
  }

  // A reply renews for b what nobody else holds: the last entry for an address decides.
  function Renewed(infos: seq<Addr>, b: nat, k: Key, h: Option<Held>): Option<Held> {
    if h.Some? && h.value.binding != b then h
    else
      var last := LastFor(infos, k);
      if last.None? then h else if Good(last.value) then Some(Held(b, last.value)) else None
  }

  lemma UpdateOneKeeps(db: Db, b: nat, a: Addr, now: Time, loose: set<nat>)
    requires InvBut(db, loose) && b in db.bindings
    ensures var db1 := UpdateOne(db, b, a, now); InvBut(db1, loose) && OthersKept(db, db1, b)
  {
    hide InvBut, UpdateLease, AddLease, FindLease, OthersKept;
    FindIsHolder(db, b, a, loose);
    var r := FindLease(db, b, a);
    if r.Some? {
      UpdateLeaseKeeps(db, r.value, a, now, loose);
    } else {
      AddLeaseKeeps(db, b, a, now, loose);
    }
  }

  lemma UpdateOneHolds(db: Db, b: nat, a: Addr, now: Time, loose: set<nat>, k: Key)
    requires InvBut(db, loose) && b in db.bindings
    ensures Holder(UpdateOne(db, b, a, now), k) == Renewed([a], b, k, Holder(db, k))
  {
    hide InvBut, UpdateLease, AddLease, FindLease, Holder, Good;
    FindIsHolder(db, b, a, loose);
    assert LastFor([a], k) == if KeyOf(a) == k then Some(a) else None by { assert [a][1..] == []; }
    var r := FindLease(db, b, a);
    if r.Some? {
      UpdateLeaseHolds(db, r.value, a, now, loose, k);
    } else {
      AddLeaseHolds(db, b, a, now, loose, k);
    }
  }

  lemma {:induction false} UpdateAllKeeps(db: Db, b: nat, infos: seq<Addr>, now: Time, loose: set<nat>)
    requires InvBut(db, loose) && b in db.bindings
    ensures var db1 := UpdateAll(db, b, infos, now); InvBut(db1, loose) && OthersKept(db, db1, b)
    decreases |infos|
  {
    hide InvBut, UpdateOne;
    if infos != [] {
      UpdateOneKeeps(db, b, infos[0], now, loose);
      UpdateAllKeeps(UpdateOne(db, b, infos[0], now), b, infos[1..], now, loose);
    }
  }

  lemma RenewedOn(a: Addr, rest: seq<Addr>, b: nat, k: Key, h: Option<Held>)
    ensures Renewed(rest, b, k, Renewed([a], b, k, h)) == Renewed([a] + rest, b, k, h)
  {
    hide Good;
    assert ([a] + rest)[1..] == rest && [a][1..] == [];
    assert LastFor([a], k) == if KeyOf(a) == k then Some(a) else None;
    assert LastFor([a] + rest, k) == if LastFor(rest, k).Some? then LastFor(rest, k) else LastFor([a], k);
  }

  lemma {:induction false} UpdateAllHolds(db: Db, b: nat, infos: seq<Addr>, now: Time, loose: set<nat>, k: Key)
    requires InvBut(db, loose) && b in db.bindings
    ensures Holder(UpdateAll(db, b, infos, now), k) == Renewed(infos, b, k, Holder(db, k))
    decreases |infos|
  {
    hide InvBut, UpdateOne, Holder;
    if infos != [] {
      UpdateOneKeeps(db, b, infos[0], now, loose);
      UpdateOneHolds(db, b, infos[0], now, loose, k);
      UpdateAllHolds(UpdateOne(db, b, infos[0], now), b, infos[1..], now, loose, k);
      RenewedOn(infos[0], infos[1..], b, k, Holder(db, k));
      assert [infos[0]] + infos[1..] == infos;
      hide Renewed;
    }
  }

  // ---------------------------------------------------------------------------
  // Removing several leases
  // ---------------------------------------------------------------------------

  // The leases of a list that are still there and all belong to b.
  ghost predicate OwnList(db: Db, b: nat, list: seq<nat>) {
    Distinct(list) && forall i :: 0 <= i < |list| ==> list[i] in db.leases && db.leases[list[i]].binding == b
  }

  lemma OwnListStart(db: Db, b: nat, loose: set<nat>)
    requires InvBut(db, loose) && b in db.bindings
    ensures OwnList(db, b, db.bindings[b].list)
    ensures forall k :: HeldBy(db, k, b) ==> db.leaseTable[k] in db.bindings[b].list
  {
    hide Registered, Timed, Distinct;
    forall i | 0 <= i < |db.bindings[b].list| ensures db.bindings[b].list[i] in db.leases
        && db.leases[db.bindings[b].list[i]].binding == b {
      assert On(db.bindings, b, db.bindings[b].list[i]);
    }
    forall k | HeldBy(db, k, b) ensures db.leaseTable[k] in db.bindings[b].list {
      assert On(db.bindings, b, db.leaseTable[k]);
    }
  }

  lemma OwnListRest(db: Db, b: nat, list: seq<nat>, db1: Db)
    requires OwnList(db, b, list) && list != []
    requires db1.leases == db.leases || db1.leases == db.leases - {list[0]}
    ensures OwnList(db1, b, list[1..])
  {
  }

  // Whether the walk over the list takes the lease with the key.
  ghost predicate Taken(db: Db, list: seq<nat>, infos: Option<seq<Addr>>, k: Key) {
    k in db.leaseTable && db.leaseTable[k] in list && db.leaseTable[k] in db.leases
    && (infos.Some? ==> !Listed(infos.value, db.leases[db.leaseTable[k]].addr))
  }

  // Prune and RemoveAll are the same walk with and without a list of leases to keep.
  function Sweep(db: Db, list: seq<nat>, infos: Option<seq<Addr>>): Db
    decreases |list|
  {
    if list == [] then db
    else Sweep(if list[0] in db.leases
               && (infos.Some? ==> !Listed(infos.value, db.leases[list[0]].addr)) then RemoveLease(db, list[0]) else db,
                   list[1..], infos)
  }

  lemma {:induction false} SweepIs(db: Db, list: seq<nat>, infos: seq<Addr>)
    ensures Sweep(db, list, None) == RemoveAll(db, list)
    ensures Sweep(db, list, Some(infos)) == Prune(db, list, infos)
    decreases |list|
  {
    hide RemoveLease, Listed;
    if list != [] {
      SweepIs(if list[0] in db.leases then RemoveLease(db, list[0]) else db, list[1..], infos);
      SweepIs(if list[0] in db.leases && !Listed(infos, db.leases[list[0]].addr) then RemoveLease(db, list[0]) else db,
              list[1..], infos);
    }
  }

  lemma {:induction false} SweepKeeps(db: Db, b: nat, list: seq<nat>, infos: Option<seq<Addr>>, loose: set<nat>)
    requires InvBut(db, loose) && b in db.bindings && OwnList(db, b, list)
    ensures var db1 := Sweep(db, list, infos); InvBut(db1, loose) && OthersKept(db, db1, b)
    decreases |list|
  {
    hide InvBut, RemoveLease, Listed, Distinct;
    if list != [] {
      RemoveLeaseKeeps(db, list[0], loose);
      var db1 := if infos.Some? ==> !Listed(infos.value, db.leases[list[0]].addr) then RemoveLease(db, list[0]) else db;
      OwnListRest(db, b, list, db1);
      SweepKeeps(db1, b, list[1..], infos, loose);
    }
  }

  lemma SweepOne(db: Db, l: nat, infos: Option<seq<Addr>>, loose: set<nat>, k: Key, rest: seq<nat>)
    requires InvBut(db, loose) && l in db.leases && l !in rest
    ensures var db1 := if infos.Some? ==> !Listed(infos.value, db.leases[l].addr) then RemoveLease(db, l) else db;
            && Holder(db1, k) == (if Taken(db, [l], infos, k) then None else Holder(db, k))
            && (Taken(db1, rest, infos, k) <==> Taken(db, rest, infos, k))
  {
    hide Registered, Timed, Listing, Listed, Without, Disarm;
    LeaseKnown(db, l, loose);
    RemoveLeaseFrees(db, l, loose, k);
  }

  lemma {:induction false} SweepHolds(db: Db, b: nat, list: seq<nat>, infos: Option<seq<Addr>>, loose: set<nat>, k: Key)
    requires InvBut(db, loose) && b in db.bindings && OwnList(db, b, list)
    ensures Holder(Sweep(db, list, infos), k) == if Taken(db, list, infos, k) then None else Holder(db, k)
    decreases |list|
  {
    hide InvBut, RemoveLease, Listed, Holder;
    if list != [] {
      assert list[0] !in list[1..];
      RemoveLeaseKeeps(db, list[0], loose);
      SweepOne(db, list[0], infos, loose, k, list[1..]);
      var db1 := if infos.Some? ==> !Listed(infos.value, db.leases[list[0]].addr) then RemoveLease(db, list[0]) else db;
      OwnListRest(db, b, list, db1);
      SweepHolds(db1, b, list[1..], infos, loose, k);
      assert list == [list[0]] + list[1..];
    }
  }

  // ---------------------------------------------------------------------------
  // Removing a binding
  // ---------------------------------------------------------------------------

  lemma NothingHeld(db: Db, b: nat, loose: set<nat>)
    requires InvBut(db, loose) && b in db.bindings
    ensures db.bindings[b].list == [] <==> forall k :: !HeldBy(db, k, b)
  {
    hide Registered, Timed, Distinct;
    if db.bindings[b].list != [] {
      var l := db.bindings[b].list[0];
      assert On(db.bindings, b, l);
      assert HeldBy(db, KeyOf(db.leases[l].addr), b);
    } else {
      assert forall l :: !On(db.bindings, b, l);
      assert forall k :: k in db.leaseTable ==> On(db.bindings, db.leases[db.leaseTable[k]].binding, db.leaseTable[k]);
    }
  }

  // All of b's leases removed, everyone else's kept.
  function Bereft(b: nat, h: Option<Held>): Option<Held> {
    if h.Some? && h.value.binding == b then None else h
  }

  lemma RemoveAllOf(db: Db, b: nat, loose: set<nat>)
    requires InvBut(db, loose) && b in db.bindings
    ensures var db1 := RemoveAll(db, db.bindings[b].list);
            && InvBut(db1, loose) && OthersKept(db, db1, b) && db1.bindings[b].list == []
            && forall k :: Holder(db1, k) == Bereft(b, Holder(db, k))
  {
    hide InvBut, RemoveAll, Sweep, OwnList, Holder, Taken;
    var list := db.bindings[b].list;
    OwnListStart(db, b, loose);
    SweepIs(db, list, []);
    SweepKeeps(db, b, list, None, loose);
    var db1 := RemoveAll(db, list);
    forall k ensures Holder(db1, k) == Bereft(b, Holder(db, k)) {
      SweepHolds(db, b, list, None, loose, k);
      TakenAll(db, b, loose, k);
    }
    NothingHeld(db1, b, loose);
  }

  lemma TakenAll(db: Db, b: nat, loose: set<nat>, k: Key)
    requires InvBut(db, loose) && b in db.bindings
    ensures Taken(db, db.bindings[b].list, None, k) <==> HeldBy(db, k, b)
  {
    OwnListStart(db, b, loose);
    hide Registered, Timed, Distinct;
    if Taken(db, db.bindings[b].list, None, k) {
      assert On(db.bindings, b, db.leaseTable[k]);
    }
  }

  // A record without leases leaves the two maps it is in.
  lemma DropKeeps(db: Db, b: nat, table: map<Client, nat>, loose: set<nat>)
    requires InvBut(db, loose) && b in db.bindings && db.bindings[b].list == []
    requires forall c :: c in table <==> c in db.bindingTable && db.bindingTable[c] != b
    requires forall c :: c in table ==> table[c] == db.bindingTable[c]
    ensures InvBut(db.(bindings := db.bindings - {b}, bindingTable := table,
                       timers := Disarm(db, db.bindings[b].timer)), loose - {b})
  {
    DisarmBinding(db, b);
    DropListing(db.leases, db.bindings, b);
    DropRegistered(db.bindings, db.bindingTable, table, b, loose);
    hide Listing, Indexed, Timed, Registered;
  }

  lemma DropListing(leases: map<nat, Lease>, bindings: map<nat, Binding>, b: nat)
    requires Listing(leases, bindings) && b in bindings && bindings[b].list == []
    ensures Listing(leases, bindings - {b})
  {
    hide On, Distinct;
    forall y, x ensures On(bindings - {b}, y, x) <==> On(bindings, y, x) {
      OnMeans(bindings - {b}, y, x);
      OnMeans(bindings, y, x);
    }
  }

  lemma DropRegistered(bindings: map<nat, Binding>, was: map<Client, nat>, table: map<Client, nat>, b: nat,
                       loose: set<nat>)
    requires Registered(bindings, was, loose) && b in bindings
    requires forall c :: c in table <==> c in was && was[c] != b
    requires forall c :: c in table ==> table[c] == was[c]
    ensures Registered(bindings - {b}, table, loose - {b})
  {
  }

  // A binding that is in the table under its own key goes without a trace.
  lemma RemoveBindingKeeps(db: Db, b: nat, loose: set<nat>)
    requires InvBut(db, loose) && b in db.bindings && b !in loose
    ensures var db1 := RemoveBinding(db, b);
            && InvBut(db1, loose) && db1.bindings.Keys == db.bindings.Keys - {b}
            && (forall x :: x in db1.bindings ==> db1.bindings[x] == db.bindings[x])
            && forall k :: Holder(db1, k) == Bereft(b, Holder(db, k))
  {
    RemoveAllOf(db, b, loose);
    var db1 := RemoveAll(db, db.bindings[b].list);
    RegisteredOnce(db1, b, loose);
    DropKeeps(db1, b, db1.bindingTable - {db1.bindings[b].client}, loose);
    assert loose - {b} == loose;
    hide InvBut, RemoveAll, Disarm;
  }

  lemma RegisteredOnce(db: Db, b: nat, loose: set<nat>)
    requires InvBut(db, loose) && b in db.bindings && b !in loose
    ensures var c := db.bindings[b].client;
            c in db.bindingTable && forall x :: x in db.bindingTable - {c} <==>
                  x in db.bindingTable && db.bindingTable[x] != b
  {
    hide Listing, Indexed, Timed;
  }

  // ---------------------------------------------------------------------------
  // A binding's timer
  // ---------------------------------------------------------------------------

  lemma {:induction false} MaxValidIsMax(db: Db, list: seq<nat>)
    requires forall i :: 0 <= i < |list| ==> list[i] in db.leases
    ensures forall i :: 0 <= i < |list| ==> db.leases[list[i]].addr.valid <= MaxValid(db, list)
    ensures list != [] ==> exists i :: 0 <= i < |list| && db.leases[list[i]].addr.valid == MaxValid(db, list)
  {
    if list != [] {
      var rest := list[1..];
      MaxValidIsMax(db, rest);
      if rest != [] {
        var i :| 0 <= i < |rest| && db.leases[rest[i]].addr.valid == MaxValid(db, rest);
        assert list[i + 1] == rest[i];
      }
      forall i | 0 <= i < |list| ensures db.leases[list[i]].addr.valid <= MaxValid(db, list) {
        if i > 0 {
          assert list[i] == rest[i - 1];
        }
      }
      assert list[0] in db.leases;
    }
  }

  // Its timer runs for the longest valid lifetime of its leases.
  ghost predicate Lasting(db: Db, b: nat, now: Time) {
    && b in db.bindings && db.bindings[b].timer.Some? && db.bindings[b].timer.value in db.timers.recs
    && (exists k :: HeldBy(db, k, b)
          && db.timers.recs[db.bindings[b].timer.value].due == After(now, Holder(db, k).value.addr.valid)
          && forall j :: HeldBy(db, j, b) ==> Holder(db, j).value.addr.valid <= Holder(db, k).value.addr.valid)
  }

  lemma ArmBindingKeeps(db: Db, b: nat, now: Time, loose: set<nat>)
    requires InvBut(db, loose) && b in db.bindings
    ensures var db1 := ArmBinding(db, b, now);
            && InvBut(db1, loose) && db1.bindings.Keys == db.bindings.Keys && db1.bindingTable == db.bindingTable
            && (forall x :: x in db.bindings && x != b ==> db1.bindings[x] == db.bindings[x])
            && db1.bindings[b].list == db.bindings[b].list && db1.leases == db.leases && db1.leaseTable == db.leaseTable
            && db1.bindings[b].timer.Some? && db1.bindings[b].timer.value in db1.timers.recs
            && db1.timers.recs[db1.bindings[b].timer.value].due == After(now, MaxValid(db, db.bindings[b].list))
  {
    hide WellFormed, After, Listing, Indexed, Registered, Timed, MaxValid;
    var binding := db.bindings[b];
    var due := After(now, MaxValid(db, binding.list));
    var isNew := binding.timer.None?;
    var tl, t := if isNew then AddTimer(db.timers, OfBinding(b)) else db.timers,
        if isNew then db.timers.next else binding.timer.value;
    var bindings1 := db.bindings[b := binding.(timer := Some(t))];
    if isNew {
      NewTimed(db.leases, db.bindings, db.timers, OfBinding(b));
    } else {
      OwnTimer(db, b);
      assert bindings1 == db.bindings;
    }
    SetTimed(db.leases, bindings1, tl, t, due);
    TimerOnly(db.bindings, bindings1, db.leases, db.bindingTable, loose);
  }

  lemma OwnTimer(db: Db, b: nat)
    requires Timed(db.leases, db.bindings, db.timers) && b in db.bindings && db.bindings[b].timer.Some?
    ensures db.bindings[b].timer.value in db.timers.recs
  {
  }

  lemma TimerOnly(a: map<nat, Binding>, b: map<nat, Binding>, leases: map<nat, Lease>, table: map<Client, nat>,
                  loose: set<nat>)
    requires a.Keys == b.Keys && forall x :: x in a ==> b[x].client == a[x].client && b[x].list == a[x].list
    ensures Registered(a, table, loose) ==> Registered(b, table, loose)
    ensures Listing(leases, a) ==> Listing(leases, b)
  {
    hide Distinct, On;
    forall y, x ensures On(b, y, x) <==> On(a, y, x) {
      OnMeans(a, y, x);
      OnMeans(b, y, x);
    }
  }

  lemma ArmBindingLasts(db: Db, b: nat, now: Time, loose: set<nat>)
    requires InvBut(db, loose) && b in db.bindings && db.bindings[b].list != []
    ensures Lasting(ArmBinding(db, b, now), b, now)
    ensures forall k :: Holder(ArmBinding(db, b, now), k) == Holder(db, k)
  {
    hide InvBut, ArmBinding, After, Distinct;
    ArmBindingKeeps(db, b, now, loose);
    OwnListStart(db, b, loose);
    var db1, list := ArmBinding(db, b, now), db.bindings[b].list;
    MaxValidIsMax(db, list);
    hide MaxValid;
    var i :| 0 <= i < |list| && db.leases[list[i]].addr.valid == MaxValid(db, list);
    var k := KeyOf(db.leases[list[i]].addr);
    LeaseKnown(db, list[i], loose);
    assert HeldBy(db1, k, b) && Holder(db1, k).value.addr.valid == MaxValid(db, list);
    forall j | HeldBy(db1, j, b) ensures Holder(db1, j).value.addr.valid <= MaxValid(db, list) {
      assert HeldBy(db, j, b);
      assert db.leaseTable[j] in list;
    }
  }

  // ---------------------------------------------------------------------------
  // Updating a binding
  // ---------------------------------------------------------------------------

  // What the reply leaves in b's hands.
  function Updated(infos: seq<Addr>, update: bool, b: nat, k: Key, h: Option<Held>): Option<Held> {
    if h.Some? && h.value.binding != b then h
    else
      var last := LastFor(infos, k);
      if update then if last.Some? && Good(last.value) then Some(Held(b, last.value)) else None
      else if last.Some? then None else h
  }

  lemma {:induction false} ReleaseAllKeeps(db: Db, b: nat, infos: seq<Addr>, loose: set<nat>)
    requires InvBut(db, loose) && b in db.bindings
    ensures var db1 := ReleaseAll(db, b, infos);
            && InvBut(db1, loose) && OthersKept(db, db1, b)
            && forall k :: Holder(db1, k) == Updated(infos, false, b, k, Holder(db, k))
    decreases |infos|
  {
    hide InvBut, RemoveLease, FindLease, Holder, Good;
    if infos != [] {
      FindIsHolder(db, b, infos[0], loose);
      var r := FindLease(db, b, infos[0]);
      var db1 := if r.Some? then RemoveLease(db, r.value) else db;
      if r.Some? {
        RemoveLeaseKeeps(db, r.value, loose);
      }
      ReleaseAllKeeps(db1, b, infos[1..], loose);
      forall k ensures Holder(ReleaseAll(db, b, infos), k) == Updated(infos, false, b, k, Holder(db, k)) {
        if r.Some? {
          RemoveLeaseFrees(db, r.value, loose, k);
        }
      }
    }
  }

  lemma ListedIsLast(infos: seq<Addr>, a: Addr)
    ensures Listed(infos, a) <==> LastFor(infos, KeyOf(a)).Some?
  {
    if infos != [] {
      var rest := infos[1..];
      ListedIsLast(rest, a);
      if Listed(rest, a) {
        var i :| 0 <= i < |rest| && KeyOf(rest[i]) == KeyOf(a);
        assert infos[i + 1] == rest[i];
      }
      if Listed(infos, a) {
        var i :| 0 <= i < |infos| && KeyOf(infos[i]) == KeyOf(a);
        assert i == 0 || rest[i - 1] == infos[i];
      }
    }
  }

  lemma TakenByPrune(db: Db, b: nat, infos: seq<Addr>, loose: set<nat>, k: Key)
    requires InvBut(db, loose) && b in db.bindings
    ensures Taken(db, db.bindings[b].list, Some(infos), k) <==> HeldBy(db, k, b) && LastFor(infos, k).None?
  {
    OwnListStart(db, b, loose);
    TakenAll(db, b, loose, k);
    hide Registered, Timed, Distinct, Listing, Listed;
    if k in db.leaseTable {
      ListedIsLast(infos, db.leases[db.leaseTable[k]].addr);
    }
  }

  lemma PruneOf(db: Db, b: nat, infos: seq<Addr>, loose: set<nat>)
    requires InvBut(db, loose) && b in db.bindings
    ensures var db1 := Prune(db, db.bindings[b].list, infos);
            && InvBut(db1, loose) && OthersKept(db, db1, b)
            && forall k :: Holder(db1, k) == if HeldBy(db, k, b) && LastFor(infos, k).None? then None else Holder(db, k)
  {
    hide InvBut, Prune, Sweep, OwnList, Taken, Holder;
    var list := db.bindings[b].list;
    OwnListStart(db, b, loose);
    SweepIs(db, list, infos);
    SweepKeeps(db, b, list, Some(infos), loose);
    forall k ensures Holder(Prune(db, list, infos), k) == if HeldBy(db, k, b)
        && LastFor(infos, k).None? then None else Holder(db, k) {
      SweepHolds(db, b, list, Some(infos), loose, k);
      TakenByPrune(db, b, infos, loose, k);
    }
  }

  // The leases of the binding before it is settled.
  lemma ChangeKeeps(db: Db, b: nat, infos: seq<Addr>, update: bool, now: Time, loose: set<nat>)
    requires InvBut(db, loose) && b in db.bindings
    ensures var db1 := if update then UpdateAll(db, b, infos, now) else ReleaseAll(db, b, infos);
            && b in db1.bindings
            && var db2 := if update then Prune(db1, db1.bindings[b].list, infos) else db1;
               && InvBut(db2, loose) && OthersKept(db, db2, b)
               && forall k :: Holder(db2, k) == Updated(infos, update, b, k, Holder(db, k))
  {
    hide InvBut, UpdateAll, ReleaseAll, Prune, Holder, Good;
    if update {
      UpdateAllKeeps(db, b, infos, now, loose);
      var db1 := UpdateAll(db, b, infos, now);
      PruneOf(db1, b, infos, loose);
      forall k ensures Holder(db1, k)
          == Renewed(infos, b, k, Holder(db, k)) { UpdateAllHolds(db, b, infos, now, loose, k); }
    } else {
      ReleaseAllKeeps(db, b, infos, loose);
    }
  }

  // A binding is there exactly while it holds something.
  ghost predicate Standing(db: Db, b: nat, now: Time) {
    (b in db.bindings <==> exists k :: HeldBy(db, k, b)) && (b in db.bindings ==> Lasting(db, b, now))
  }

  lemma SettleKeeps(db: Db, b: nat, now: Time)
    requires InvBut(db, {}) && b in db.bindings
    ensures var db1 := Settle(db, b, now);
            && InvBut(db1, {}) && Standing(db1, b, now)
            && db1.bindings.Keys - {b} == db.bindings.Keys - {b}
            && (forall x :: x in db1.bindings && x != b ==> db1.bindings[x] == db.bindings[x])
            && forall k :: Holder(db1, k) == Holder(db, k)
  {
    hide InvBut, RemoveBinding, ArmBinding, Holder, Lasting;
    NothingHeld(db, b, {});
    if db.bindings[b].list == [] {
      RemoveBindingKeeps(db, b, {});
      forall k ensures Bereft(b, Holder(db, k)) == Holder(db, k) { assert !HeldBy(db, k, b); }
      assert forall k :: HeldBy(Settle(db, b, now), k, b) ==> HeldBy(db, k, b);
    } else {
      ArmBindingKeeps(db, b, now, {});
      ArmBindingLasts(db, b, now, {});
      var k :| HeldBy(db, k, b);
      assert HeldBy(Settle(db, b, now), k, b);
    }
  }

  lemma TimersStay(db: Db, db1: Db, b: nat, now: Time)
    requires Inv(db) && InvBut(db1, {}) && Standing(db1, b, now)
    requires forall x :: x in db1.bindings && x != b ==>
               x in db.bindings && db1.bindings[x].timer == db.bindings[x].timer
    ensures Inv(db1)
  {
    hide InvBut;
  }

  // A renewal leaves the binding exactly the addresses of the reply with a good status, non-zero
  // lifetimes and no other holder, and a release or decline exactly what it had and did not list;
  // where the reply names an address more than once the last entry counts. Nobody else is
  // touched. The binding is gone exactly if it holds nothing, and otherwise its timer runs for
  // the longest valid lifetime.
  lemma UpdateExactly(db: Db, client: Client, infos: seq<Addr>, update: bool, now: Time)
    requires Inv(db) && client in db.bindingTable
    ensures var b := db.bindingTable[client];
            var db1 := UpdateBinding(db, client, infos, update, now);
            && Inv(db1) && Standing(db1, b, now)
            && (forall k :: Holder(db1, k) == Updated(infos, update, b, k, Holder(db, k)))
            && db1.bindings.Keys - {b} == db.bindings.Keys - {b}
  {
    hide UpdateBinding, Settle, InvBut, Holder, Updated, Standing;
    var b := db.bindingTable[client];
    var db2 := Changed(db, client, infos, update, now);
    SettleKeeps(db2, b, now);
    var db1 := Settle(db2, b, now);
    forall x | x in db1.bindings && x != b ensures x in db.bindings && db1.bindings[x].timer == db.bindings[x].timer {
      assert x in db1.bindings.Keys - {b};
    }
    TimersStay(db, db1, b, now);
  }

  lemma Changed(db: Db, client: Client, infos: seq<Addr>, update: bool, now: Time) returns (db2: Db)
    requires Inv(db) && client in db.bindingTable
    ensures var b := db.bindingTable[client];
            && InvBut(db2, {}) && OthersKept(db, db2, b) && b in db.bindings
            && (forall k :: Holder(db2, k) == Updated(infos, update, b, k, Holder(db, k)))
            && UpdateBinding(db, client, infos, update, now) == Settle(db2, b, now)
  {
    hide InvBut, UpdateAll, ReleaseAll, Prune, Holder, Settle, Updated;
    var b := db.bindingTable[client];
    TableLeads(db, client);
    ChangeKeeps(db, b, infos, update, now, {});
    var db1 := if update then UpdateAll(db, b, infos, now) else ReleaseAll(db, b, infos);
    db2 := if update then Prune(db1, db1.bindings[b].list, infos) else db1;
  }

  lemma TableLeads(db: Db, client: Client)
    requires Inv(db) && client in db.bindingTable
    ensures var b := db.bindingTable[client]; b in db.bindings && db.bindings[b].client == client
  {
    hide Listing, Indexed, Timed;
  }

  // ---------------------------------------------------------------------------
  // A new binding
  // ---------------------------------------------------------------------------

  function FirstGood(infos: seq<Addr>, k: Key): Option<Addr> {
    if infos == [] then None
    else if KeyOf(infos[0]) == k && Good(infos[0]) then Some(infos[0])
    else FirstGood(infos[1..], k)
  }

  // A request gets every good address of the reply that nobody holds yet.
  function Granted(infos: seq<Addr>, b: nat, k: Key, h: Option<Held>): Option<Held> {
    if h.None? && FirstGood(infos, k).Some? then Some(Held(b, FirstGood(infos, k).value)) else h
  }

  // Whether it gets any.
  ghost predicate Grants(db: Db, infos: seq<Addr>) {
    exists k :: Holder(db, k).None? && FirstGood(infos, k).Some?
  }

  lemma FreeIsUnheld(db: Db, k: Key, loose: set<nat>)
    requires InvBut(db, loose)
    ensures Holder(db, k).None? <==> k !in db.leaseTable
  {
    hide Listing, Registered, Timed;
  }

  lemma {:induction false} AddAllKeeps(db: Db, b: nat, infos: seq<Addr>, now: Time, loose: set<nat>)
    requires InvBut(db, loose) && b in db.bindings
    ensures var db1 := AddAll(db, b, infos, now);
            && InvBut(db1, loose) && OthersKept(db, db1, b)
            && forall k :: Holder(db1, k) == Granted(infos, b, k, Holder(db, k))
    decreases |infos|
  {
    hide InvBut, AddLease, Holder, Good;
    if infos != [] {
      AddLeaseKeeps(db, b, infos[0], now, loose);
      var db1 := AddLease(db, b, infos[0], now);
      AddAllKeeps(db1, b, infos[1..], now, loose);
      forall k ensures Holder(AddAll(db, b, infos, now), k) == Granted(infos, b, k, Holder(db, k)) {
        AddLeaseHolds(db, b, infos[0], now, loose, k);
        FreeIsUnheld(db, KeyOf(infos[0]), loose);
      }
    }
  }

  // The record under construction.
  function Begun(db: Db, client: Client): Db {
    db.(bindings := db.bindings[db.next := Binding(client, None, [])], next := db.next + 1)
  }

  lemma BeginKeeps(db: Db, client: Client)
    requires Inv(db)
    ensures InvBut(Begun(db, client), {db.next}) && forall k :: Holder(Begun(db, client), k) == Holder(db, k)
    ensures forall k :: !HeldBy(db, k, db.next)
  {
    hide Listing, Indexed, Registered, Timed;
    NextUnused(db);
    BeginListing(db.leases, db.bindings, db.next, client);
    BeginTimed(db, db.next, client);
    BeginRegistered(db.bindings, db.bindingTable, db.next, client);
    NextHoldsNothing(db);
  }

  lemma BeginRegistered(bindings: map<nat, Binding>, table: map<Client, nat>, b: nat, client: Client)
    requires Registered(bindings, table, {}) && b !in bindings
    ensures Registered(bindings[b := Binding(client, None, [])], table, {b})
  {
  }

  lemma NextHoldsNothing(db: Db)
    requires Inv(db)
    ensures forall k :: !HeldBy(db, k, db.next)
  {
    hide Timed, Registered, Distinct;
    forall k ensures !HeldBy(db, k, db.next) {
      if k in db.leaseTable {
        assert On(db.bindings, db.leases[db.leaseTable[k]].binding, db.leaseTable[k]);
      }
    }
  }

  lemma BeginListing(leases: map<nat, Lease>, bindings: map<nat, Binding>, b: nat, client: Client)
    requires Listing(leases, bindings) && b !in bindings
    ensures Listing(leases, bindings[b := Binding(client, None, [])])
  {
    hide Distinct, On;
    var bindings1 := bindings[b := Binding(client, None, [])];
    forall y, x ensures On(bindings1, y, x) <==> On(bindings, y, x) {
      OnMeans(bindings, y, x);
      OnMeans(bindings1, y, x);
    }
    assert Distinct([]) by { NoneDistinct(); }
  }

  lemma NoneDistinct()
    ensures Distinct([])
  {
  }

  lemma BeginTimed(db: Db, b: nat, client: Client)
    requires Timed(db.leases, db.bindings, db.timers) && b !in db.bindings
    ensures Timed(db.leases, db.bindings[b := Binding(client, None, [])], db.timers)
  {
    hide WellFormed;
  }

  // A record that got no lease is forgotten again.
  lemma ForgetKeeps(db: Db, b: nat)
    requires InvBut(db, {b}) && b in db.bindings && db.bindings[b].list == [] && db.bindings[b].timer.None?
    ensures InvBut(db.(bindings := db.bindings - {b}), {})
            && forall k :: Holder(db.(bindings := db.bindings - {b}), k) == Holder(db, k)
  {
    LooseUnlisted(db, b);
    DropKeeps(db, b, db.bindingTable, {b});
    assert {b} - {b} == {};
    hide InvBut;
  }

  lemma LooseUnlisted(db: Db, b: nat)
    requires InvBut(db, {b})
    ensures forall c :: c in db.bindingTable ==> db.bindingTable[c] != b
  {
    hide Listing, Indexed, Timed;
  }

  lemma RegisterKeeps(db: Db, b: nat)
    requires InvBut(db, {b}) && b in db.bindings && db.bindings[b].client !in db.bindingTable
    ensures InvBut(db.(bindingTable := db.bindingTable[db.bindings[b].client := b]), {})
  {
    hide Listing, Indexed, Timed;
  }

  lemma GrantedOnly(db: Db, db1: Db, infos: seq<Addr>, b: nat)
    requires forall k :: Holder(db1, k) == Granted(infos, b, k, Holder(db, k))
    requires forall k :: !HeldBy(db, k, b)
    ensures forall k :: HeldBy(db1, k, b) <==> Holder(db, k).None? && FirstGood(infos, k).Some?
  {
    hide Holder, FirstGood;
    forall k ensures HeldBy(db1, k, b) <==> Holder(db, k).None? && FirstGood(infos, k).Some? {
      assert !HeldBy(db, k, b);
    }
  }

  // With the client's key free, a request adds exactly what it is granted, under a new record.
  lemma AddExactly(db: Db, client: Client, infos: seq<Addr>, now: Time)
    requires Inv(db) && client !in db.bindingTable
    ensures var db1, b := AddBinding(db, client, infos, now), db.next;
            && Inv(db1) && Standing(db1, b, now)
               && (b in db1.bindings ==> client in db1.bindingTable && db1.bindingTable[client] == b)
            && (b in db1.bindings <==> Grants(db, infos))
            && forall k :: Holder(db1, k) == Granted(infos, b, k, Holder(db, k))
  {
    hide InvBut, AddAll, ArmBinding, Holder, Lasting, OthersKept, FirstGood;
    var b := db.next;
    BeginKeeps(db, client);
    var db0 := Begun(db, client);
    AddAllKeeps(db0, b, infos, now, {b});
    var db1 := AddAll(db0, b, infos, now);
    OthersKeptMeans(db0, db1, b);
    NothingHeld(db1, b, {b});
    GrantedOnly(db, db1, infos, b);
    if db1.bindings[b].list == [] {
      ForgetKeeps(db1, b);
      assert forall k :: HeldBy(db1.(bindings := db1.bindings - {b}), k, b) ==> HeldBy(db1, k, b);
    } else {
      RegisterKeeps(db1, b);
      var db2 := db1.(bindingTable := db1.bindingTable[client := b]);
      TableOnly(db1, db2.bindingTable);
      ArmBindingKeeps(db2, b, now, {});
      ArmBindingLasts(db2, b, now, {});
      var k :| HeldBy(db1, k, b);
      assert HeldBy(ArmBinding(db2, b, now), k, b);
    }
  }

  lemma TableOnly(db: Db, table: map<Client, nat>)
    ensures forall k :: Holder(db.(bindingTable := table), k) == Holder(db, k)
  {
  }

  lemma OthersKeptMeans(db: Db, db1: Db, b: nat)
    requires OthersKept(db, db1, b)
    ensures db1.bindings.Keys == db.bindings.Keys && db1.bindingTable == db.bindingTable
    ensures forall x :: x in db.bindings ==>
              db1.bindings[x].client == db.bindings[x].client && db1.bindings[x].timer == db.bindings[x].timer
    ensures forall x :: x in db.bindings && x != b ==> db1.bindings[x] == db.bindings[x]
  {
  }

  // With the key taken, undoing the new record takes the table entry of the other one away: a
  // request keeps the invariant exactly if the key is free or nothing is granted.
  lemma AddKeepsExactly(db: Db, client: Client, infos: seq<Addr>, now: Time)
    requires Inv(db)
    ensures Inv(AddBinding(db, client, infos, now)) <==> client !in db.bindingTable || !Grants(db, infos)
  {
    if client !in db.bindingTable {
      AddExactly(db, client, infos, now);
    } else {
      AddCollides(db, client, infos, now);
    }
    hide Inv, AddBinding, Grants;
  }

  lemma AddCollides(db: Db, client: Client, infos: seq<Addr>, now: Time)
    requires Inv(db) && client in db.bindingTable
    ensures Inv(AddBinding(db, client, infos, now)) <==> !Grants(db, infos)
    ensures Grants(db, infos) ==> var db1 := AddBinding(db, client, infos, now);
              db.bindingTable[client] in db1.bindings && client !in db1.bindingTable
  {
    hide InvBut, AddAll, RemoveBinding, Holder, OthersKept, FirstGood, Disarm, RemoveAll;
    var b, other := db.next, db.bindingTable[client];
    TableLeads(db, client);
    NextUnused(db);
    BeginKeeps(db, client);
    var db0 := Begun(db, client);
    AddAllKeeps(db0, b, infos, now, {b});
    var db1 := AddAll(db0, b, infos, now);
    OthersKeptMeans(db0, db1, b);
    NothingHeld(db1, b, {b});
    GrantedOnly(db, db1, infos, b);
    if db1.bindings[b].list == [] {
      ForgetKeeps(db1, b);
    } else {
      RemoveAllOf(db1, b, {b});
      var db2 := RemoveAll(db1, db1.bindings[b].list);
      OthersKeptMeans(db1, db2, b);
      UndoneMeans(db1, b);
      Unregistered(RemoveBinding(db1, b), other);
    }
  }

  lemma NextUnused(db: Db)
    requires Inv(db)
    ensures db.next !in db.bindings
  {
    hide Listing, Indexed, Registered, Timed;
  }

  lemma UndoneMeans(db: Db, b: nat)
    requires b in db.bindings && b in RemoveAll(db, db.bindings[b].list).bindings
    ensures var db1, db2 := RemoveAll(db, db.bindings[b].list), RemoveBinding(db, b);
            db1.bindings[b].client in db1.bindingTable ==>
              db2.bindings == db1.bindings - {b} && db2.bindingTable == db1.bindingTable - {db1.bindings[b].client}
  {
    hide RemoveAll, Disarm;
  }

  lemma Unregistered(db: Db, b: nat)
    requires b in db.bindings && db.bindings[b].client !in db.bindingTable
    ensures !Inv(db)
  {
    hide Listing, Indexed, Timed;
  }
}
