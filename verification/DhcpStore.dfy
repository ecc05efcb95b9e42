/** The lease database as the server keeps it: two hash tables that grow in place, a timer queue,
    and records changed one field at a time. Records are reached by name instead of by address.
    Every operation on a whole binding is proved to keep the invariant and to leave exactly the
    holders it should. Prefixes and addresses are kept apart by their bytes, so that the comparison
    of the lease table is an equality. */
module DhcpStore {
  import opened Bytes
  import opened DhcpTimers
  import opened DhcpHash
  import opened DhcpLeases
  import opened DhcpInvariant
  import opened DhcpBindings
  import opened DhcpServer

  // What the tables hold: a record's name, and the key that its data carry.
  datatype Slot = Slot(l: nat, at: Addr)

  datatype Hook = Hook(b: nat, client: Client)

  function Named(m: map<Key, Slot>): map<Key, nat> {
    map k | k in m :: m[k].l
  }

  function Hooked(m: map<Client, Hook>): map<Client, nat> {
    map c | c in m :: m[c].b
  }

  class LeaseStore {
    // Which addresses stand for prefixes.
    const prefixes: Sorting
    const leaseTable: HashTable<Addr, Slot, Key>
    const bindingTable: HashTable<Client, Hook, Client>
    const timers: TimerQueue<Server, Owner>
    var leases: map<nat, Lease>
    var bindings: map<nat, Binding>
    var next: nat

    ghost function Repr(): set<object>
      reads leaseTable, bindingTable
    {
      {this, leaseTable, leaseTable.list, bindingTable, bindingTable.list, timers}
    }

    // The database all this stands for.
    ghost function State(): Db
      reads this, leaseTable, bindingTable, timers
    {
      Db(leases, bindings, Named(leaseTable.contents), Hooked(bindingTable.contents), timers.List(), next, false)
    }

    // Each table is sound on its own, and no lease is of the wrong sort.
    ghost predicate Sound()
      reads this, leaseTable, leaseTable.list, bindingTable, bindingTable.list, timers
    {
      && Apart() && Keyed() && timers.Valid()
      && leaseTable.Valid() && bindingTable.Valid()
      && forall l :: l in leases ==> InSort(prefixes, leases[l].addr)
    }

    ghost predicate Apart()
      reads leaseTable, bindingTable
    {
      var a: object, b: object := leaseTable.list, bindingTable.list;
      a != b
    }

    // What the tables are keyed by: with a key of the right sort, what the comparison of the lease
    // table tells apart.
    ghost predicate Keyed() {
      && (forall d: Slot :: leaseTable.keyOf(d) == d.at)
      && (forall d: Slot, a: Addr :: InSort(prefixes, a) ==> leaseTable.same(d, a) == LeaseMatch(d.at, a))
      && (forall a: Addr :: InSort(prefixes, a) ==> leaseTable.canon(a) == KeyOf(a))
      && (forall d: Hook :: bindingTable.keyOf(d) == d.client)
      && (forall c: Client :: bindingTable.canon(c) == c)
    }

    // While a request is worked on; bindings still under construction are loose.
    ghost predicate Working(loose: set<nat>)
      reads this, leaseTable, leaseTable.list, bindingTable, bindingTable.list, timers
    {
      Sound() && InvBut(State(), loose)
    }

    // Between requests.
    ghost predicate Valid()
      reads this, leaseTable, leaseTable.list, bindingTable, bindingTable.list, timers
    {
      Sound() && Inv(State())
    }

    // Addresses are hashed by their bytes and bindings by their DUID.
    constructor (prefixes: Sorting, size: nat, addrHash: Octets -> nat, duidHash: Octets -> nat)
      requires size > 0
      ensures Valid() && fresh(Repr()) && State() == NewDb() && this.prefixes == prefixes
    {
      hide Inv, LeaseMatch, KeyOf, HashTable.Valid, WellFormed, Timely, NewDb, NewList;
      this.prefixes := prefixes;
      Sorted(prefixes);
      leaseTable := new HashTable(size, (a: Addr) => addrHash(a.ip), (d: Slot) => d.at,
                                  (d: Slot, a: Addr) => LeaseMatch(d.at, AsSort(prefixes, a)),
                                  (a: Addr) => KeyOf(AsSort(prefixes, a)));
      bindingTable := new HashTable(size, (c: Client) => duidHash(c.duid), (d: Hook) => d.client,
                                    (d: Hook, c: Client) => d.client == c, (c: Client) => c);
      timers := new TimerQueue();
      leases, bindings, next := map[], map[], 0;
      new;
      assert Keyed();
      EmptyState();
      EmptyInv();
    }

    lemma EmptyState()
      requires leaseTable.contents == map[] && bindingTable.contents == map[] && timers.List() == NewList()
      requires leases == map[] && bindings == map[] && next == 0
      ensures State() == NewDb()
    {
    }

    // -------------------------------------------------------------------------
    // The tables and the timers
    // -------------------------------------------------------------------------

    method LookUp(a: Addr) returns (l: Option<nat>)
      requires Sound() && InSort(prefixes, a)
      ensures l == if KeyOf(a) in State().leaseTable then Some(State().leaseTable[KeyOf(a)]) else None
    {
      var slot := leaseTable.Search(a);
      l := if slot.Some? then Some(slot.value.l) else None;
    }

    method Enter(l: nat, a: Addr)
      requires Sound() && InSort(prefixes, a) && KeyOf(a) !in State().leaseTable
      modifies leaseTable, leaseTable.list
      ensures Sound() && fresh(Repr() - old(Repr()))
      ensures State() == old(State()).(leaseTable := old(State()).leaseTable[KeyOf(a) := l])
    {
      hide HashTable.Valid;
      ghost var m := leaseTable.contents;
      var status := leaseTable.Add(Slot(l, a));
      assert leaseTable.contents == m[KeyOf(a) := Slot(l, a)];
      NamedAdds(m, KeyOf(a), Slot(l, a));
    }

    method Leave(a: Addr) returns (known: bool)
      requires Sound() && InSort(prefixes, a)
      modifies leaseTable, leaseTable.list
      ensures Sound() && fresh(Repr() - old(Repr()))
      ensures known == (KeyOf(a) in old(State()).leaseTable)
      ensures State() == old(State()).(leaseTable := old(State()).leaseTable - {KeyOf(a)})
    {
      hide HashTable.Valid;
      ghost var m := leaseTable.contents;
      var status := leaseTable.Delete(a);
      known := status == Done;
      assert leaseTable.contents == m - {KeyOf(a)};
      NamedCuts(m, KeyOf(a));
    }

    method LookUpClient(client: Client) returns (b: Option<nat>)
      requires Sound()
      ensures b == if client in State().bindingTable then Some(State().bindingTable[client]) else None
    {
      var hook := bindingTable.Search(client);
      b := if hook.Some? then Some(hook.value.b) else None;
    }

    method EnterClient(b: nat, client: Client) returns (isNew: bool)
      requires Sound()
      modifies bindingTable, bindingTable.list
      ensures Sound() && fresh(Repr() - old(Repr()))
      ensures isNew == (client !in old(State()).bindingTable)
      ensures State() == if isNew then old(State()).(bindingTable := old(State()).bindingTable[client := b])
              else old(State())
    {
      hide HashTable.Valid;
      ghost var m := bindingTable.contents;
      var status := bindingTable.Add(Hook(b, client));
      isNew := status == Done;
      assert bindingTable.contents == if client in m then m else m[client := Hook(b, client)];
      HookedAdds(m, client, Hook(b, client));
    }

    method LeaveClient(client: Client) returns (known: bool)
      requires Sound()
      modifies bindingTable, bindingTable.list
      ensures Sound() && fresh(Repr() - old(Repr()))
      ensures known == (client in old(State()).bindingTable)
      ensures State() == old(State()).(bindingTable := old(State()).bindingTable - {client})
    {
      hide HashTable.Valid;
      ghost var m := bindingTable.contents;
      var status := bindingTable.Delete(client);
      known := status == Done;
      assert bindingTable.contents == m - {client};
      HookedCuts(m, client);
    }

    // -------------------------------------------------------------------------
    // Leases
    // -------------------------------------------------------------------------

    // (Re)starts the lease's timer unless it is infinite.
    method StartLease(l: nat, now: Time)
      requires Sound() && l in leases && Normal(now)
      requires leases[l].timer.Some? ==> leases[l].timer.value in timers.recs
      modifies this`leases, timers
      ensures Sound() && Repr() == old(Repr()) && State() == ArmLease(old(State()), l, now)
    {
      hide HashTable.Valid, WellFormed, Timely, Apart, Keyed, TimeAdd, AddTimer, SetTimer, Silent;
      var lease := leases[l];
      if Infinite(lease.addr) {
        return;
      }
      if lease.timer.None? {
        var t := timers.Add(OfLease(l));
        lease := lease.(timer := Some(t));
      }
      leases := leases[l := lease];
      timers.Set(lease.timer.value, Time(lease.addr.prefer, 0), now);
    }

    // A lease is made of a good address that nobody holds; anything else changes nothing.
    method Insert(b: nat, a: Addr, now: Time, ghost loose: set<nat>)
      requires Working(loose) && b in bindings && InSort(prefixes, a) && Normal(now)
      modifies Repr()
      ensures Working(loose) && fresh(Repr() - old(Repr()))
      ensures State() == AddLease(old(State()), b, a, now)
      ensures Took(old(State()), State(), b, a)
    {
      hide HashTable.Valid, TimerQueue.Valid, Apart, Keyed, Named, Hooked, InvBut, ArmLease, Took, Good;
      ghost var db := State();
      AddLeaseFor(db, b, a, now, loose);
      if !Good(a) {
        return;
      }
      var found := LookUp(a);
      if found.Some? {
        return;
      }
      var l := next;
      next := next + 1;
      leases := leases[l := Lease(a, Active, None, b)];
      Enter(l, a);
      bindings := bindings[b := bindings[b].(list := bindings[b].list + [l])];
      StartLease(l, now);
    }

    // The lease's address is free afterwards, and its timer will not fire.
    method Delete(l: nat, ghost loose: set<nat>)
      requires Working(loose) && l in leases
      modifies Repr()
      ensures Working(loose) && fresh(Repr() - old(Repr()))
      ensures State() == RemoveLease(old(State()), l)
      ensures Freed(old(State()), State(), l)
    {
      hide HashTable.Valid, WellFormed, Timely, Apart, Keyed, Named, Hooked, InvBut, Freed, Without, Silent;
      ghost var db := State();
      RemoveLeaseFor(db, l, loose);
      var lease := leases[l];
      var known := Leave(lease.addr);
      if lease.timer.Some? {
        timers.Remove(lease.timer.value);
      }
      var binding := bindings[lease.binding];
      bindings := bindings[lease.binding := binding.(list := Without(binding.list, l))];
      leases := leases - {l};
    }

    // Renewed by a good reply, and otherwise gone.
    method Replace(l: nat, a: Addr, now: Time, ghost loose: set<nat>)
      requires Working(loose) && l in leases && KeyOf(a) == KeyOf(leases[l].addr) && InSort(prefixes, a) && Normal(now)
      modifies Repr()
      ensures Working(loose) && fresh(Repr() - old(Repr()))
      ensures State() == UpdateLease(old(State()), l, a, now)
      ensures Replaced(old(State()), State(), l, a)
    {
      hide HashTable.Valid, WellFormed, Timely, Apart, Keyed, InvBut, Replaced, Freed, ArmLease, RemoveLease, KeyOf;
      ghost var db := State();
      UpdateLeaseFor(db, l, a, now, loose);
      if !Good(a) {
        Delete(l, loose);
        return;
      }
      leases := leases[l := leases[l].(addr := a, state := Active)];
      StartLease(l, now);
    }

    // The lease on the binding's list that has the address, if the binding holds it.
    method Find(b: nat, a: Addr, ghost loose: set<nat>) returns (found: Option<nat>)
      requires Working(loose) && b in bindings && InSort(prefixes, a)
      ensures found == FindLease(State(), b, a) && (found.Some? <==> HeldBy(State(), KeyOf(a), b))
      ensures found.Some? ==>
                found.value in leases && leases[found.value].binding == b && KeyOf(leases[found.value].addr) == KeyOf(a)
    {
      hide HashTable.Valid, TimerQueue.Valid, Apart, Keyed, InvBut, HeldBy;
      ghost var db := State();
      FindIsHolder(db, b, a, loose);
      ListedLive(db, b, loose);
      var list := bindings[b].list;
      var i := 0;
      assert list[0..] == list;
      while i < |list|
        invariant 0 <= i <= |list|
        invariant FindIn(db, list, KeyOf(a)) == FindIn(db, list[i..], KeyOf(a))
      {
        assert list[i..][1..] == list[i + 1..];
        if LeaseMatch(leases[list[i]].addr, a) {
          SortIsCoherent(leases[list[i]].addr, a);
          return Some(list[i]);
        }
        SortIsCoherent(leases[list[i]].addr, a);
        i := i + 1;
      }
      return None;
    }

    // The longest valid lifetime on the binding's list.
    method Longest(b: nat, ghost loose: set<nat>) returns (max: nat)
      requires Working(loose) && b in bindings
      ensures max == MaxValid(State(), bindings[b].list)
      ensures forall k :: HeldBy(State(), k, b) ==> Holder(State(), k).value.addr.valid <= max
    {
      hide HashTable.Valid, TimerQueue.Valid, Apart, Keyed, InvBut;
      ghost var db := State();
      ListedLive(db, b, loose);
      HeldByMax(db, b, loose);
      var list := bindings[b].list;
      var i := 0;
      max := 0;
      assert list[0..] == list;
      while i < |list|
        invariant 0 <= i <= |list|
        invariant var rest := MaxValid(db, list[i..]); MaxValid(db, list) == if max > rest then max else rest
      {
        assert list[i..][1..] == list[i + 1..];
        if leases[list[i]].addr.valid > max {
          max := leases[list[i]].addr.valid;
        }
        i := i + 1;
      }
    }

    // -------------------------------------------------------------------------
    // Walks over lists
    // -------------------------------------------------------------------------

    // Everything on the binding's list.
    method DeleteAll(b: nat, ghost loose: set<nat>)
      requires Working(loose) && b in bindings
      modifies Repr()
      ensures Working(loose) && fresh(Repr() - old(Repr()))
      ensures State() == RemoveAll(old(State()), old(bindings[b].list))
    {
      hide HashTable.Valid, TimerQueue.Valid, Apart, Keyed, InvBut, RemoveLease, OwnList, Freed;
      ghost var db := State();
      OwnListStart(db, b, loose);
      var list := bindings[b].list;
      var i := 0;
      assert list[0..] == list;
      while i < |list|
        invariant 0 <= i <= |list| && Working(loose) && fresh(Repr() - old(Repr()))
        invariant OwnList(State(), b, list[i..])
        invariant RemoveAll(db, list) == RemoveAll(State(), list[i..])
      {
        ghost var was := State();
        OwnListFirst(was, b, list[i..]);
        assert list[i..][1..] == list[i + 1..];
        LeaseKnown(was, list[i], loose);
        var found := LookUp(leases[list[i]].addr);
        if found.Some? {
          Delete(list[i], loose);
        }
        FreedLeases(was, State(), list[i]);
        OwnListRest(was, b, list[i..], State());
        i := i + 1;
      }
    }

    // What is on the binding's list and not on the reply.
    method DeleteUnlisted(b: nat, infos: seq<Addr>, ghost loose: set<nat>)
      requires Working(loose) && b in bindings && OfSort(prefixes, infos)
      modifies Repr()
      ensures Working(loose) && fresh(Repr() - old(Repr()))
      ensures State() == Prune(old(State()), old(bindings[b].list), infos)
    {
      hide HashTable.Valid, TimerQueue.Valid, Apart, Keyed, InvBut, RemoveLease, OwnList, Freed, Listed;
      ghost var db := State();
      OwnListStart(db, b, loose);
      var list := bindings[b].list;
      var i := 0;
      assert list[0..] == list;
      while i < |list|
        invariant 0 <= i <= |list| && Working(loose) && fresh(Repr() - old(Repr()))
        invariant OwnList(State(), b, list[i..])
        invariant Prune(db, list, infos) == Prune(State(), list[i..], infos)
      {
        ghost var was := State();
        OwnListFirst(was, b, list[i..]);
        assert list[i..][1..] == list[i + 1..];
        var listed := OnList(prefixes, infos, leases[list[i]].addr);
        if !listed {
          Delete(list[i], loose);
          FreedLeases(was, State(), list[i]);
        }
        OwnListRest(was, b, list[i..], State());
        i := i + 1;
      }
    }

    method InsertAll(b: nat, infos: seq<Addr>, now: Time, ghost loose: set<nat>)
      requires Working(loose) && b in bindings && OfSort(prefixes, infos) && Normal(now)
      modifies Repr()
      ensures Working(loose) && fresh(Repr() - old(Repr())) && b in bindings
      ensures State() == AddAll(old(State()), b, infos, now)
    {
      hide HashTable.Valid, TimerQueue.Valid, Apart, Keyed, InvBut, AddLease, Took;
      ghost var db := State();
      var i := 0;
      assert infos[0..] == infos;
      while i < |infos|
        invariant 0 <= i <= |infos| && Working(loose) && fresh(Repr() - old(Repr())) && b in bindings
        invariant AddAll(db, b, infos, now) == AddAll(State(), b, infos[i..], now)
      {
        ghost var was := State();
        assert infos[i..][1..] == infos[i + 1..];
        Insert(b, infos[i], now, loose);
        TookBindings(was, State(), b, infos[i]);
        i := i + 1;
      }
    }

    method ReplaceAll(b: nat, infos: seq<Addr>, now: Time, ghost loose: set<nat>)
      requires Working(loose) && b in bindings && OfSort(prefixes, infos) && Normal(now)
      modifies Repr()
      ensures Working(loose) && fresh(Repr() - old(Repr())) && b in bindings
      ensures State() == UpdateAll(old(State()), b, infos, now)
    {
      hide HashTable.Valid, TimerQueue.Valid, Apart, Keyed, InvBut, AddLease, UpdateLease, FindLease, Took, Replaced,
           HeldBy, KeyOf;
      ghost var db := State();
      var i := 0;
      assert infos[0..] == infos;
      while i < |infos|
        invariant 0 <= i <= |infos| && Working(loose) && fresh(Repr() - old(Repr())) && b in bindings
        invariant UpdateAll(db, b, infos, now) == UpdateAll(State(), b, infos[i..], now)
      {
        ghost var was := State();
        assert infos[i..][1..] == infos[i + 1..];
        var found := Find(b, infos[i], loose);
        if found.Some? {
          Replace(found.value, infos[i], now, loose);
          ReplacedBindings(was, State(), found.value, infos[i]);
        } else {
          Insert(b, infos[i], now, loose);
          TookBindings(was, State(), b, infos[i]);
        }
        i := i + 1;
      }
    }

    method DeleteListed(b: nat, infos: seq<Addr>, ghost loose: set<nat>)
      requires Working(loose) && b in bindings && OfSort(prefixes, infos)
      modifies Repr()
      ensures Working(loose) && fresh(Repr() - old(Repr())) && b in bindings
      ensures State() == ReleaseAll(old(State()), b, infos)
    {
      hide HashTable.Valid, TimerQueue.Valid, Apart, Keyed, InvBut, RemoveLease, FindLease, Freed, HeldBy, KeyOf;
      ghost var db := State();
      var i := 0;
      assert infos[0..] == infos;
      while i < |infos|
        invariant 0 <= i <= |infos| && Working(loose) && fresh(Repr() - old(Repr())) && b in bindings
        invariant ReleaseAll(db, b, infos) == ReleaseAll(State(), b, infos[i..])
      {
        ghost var was := State();
        assert infos[i..][1..] == infos[i + 1..];
        var found := Find(b, infos[i], loose);
        if found.Some? {
          Delete(found.value, loose);
          FreedLeases(was, State(), found.value);
        }
        i := i + 1;
      }
    }

    // -------------------------------------------------------------------------
    // Bindings
    // -------------------------------------------------------------------------

    // The binding lasts as long as the longest of its leases.
    method StartBinding(b: nat, now: Time, ghost loose: set<nat>)
      requires Working(loose) && b in bindings && Normal(now)
      modifies this`bindings, timers
      ensures Working(loose) && Repr() == old(Repr()) && State() == ArmBinding(old(State()), b, now)
      ensures old(bindings[b].list) != [] ==> Lasting(State(), b, now)
    {
      hide HashTable.Valid, WellFormed, Timely, Apart, Keyed, InvBut, TimeAdd, AddTimer, SetTimer, Silent, MaxValid,
           HeldBy, Holder, Lasting;
      ghost var db := State();
      ArmBindingFor(db, b, now, loose);
      var longest := Longest(b, loose);
      var binding := bindings[b];
      if binding.timer.None? {
        var t := timers.Add(OfBinding(b));
        binding := binding.(timer := Some(t));
      }
      bindings := bindings[b := binding];
      timers.Set(binding.timer.value, Time(longest, 0), now);
    }

    // Everything the binding held is free. The table entry goes by the binding's key, so a loose
    // binding takes away that of the one that has its key.
    method DeleteBinding(b: nat, ghost loose: set<nat>)
      requires Working(loose) && b in bindings
      modifies Repr()
      ensures Sound() && fresh(Repr() - old(Repr())) && State() == RemoveBinding(old(State()), b)
      ensures b !in loose ==> Working(loose) && Vanished(old(State()), State(), b)
    {
      hide HashTable.Valid, WellFormed, Timely, Apart, Keyed, InvBut, RemoveAll, Silent, Vanished;
      ghost var db := State();
      RemoveBindingFor(db, b, loose);
      DeleteAll(b, loose);
      ghost var db1 := State();
      var known := LeaveClient(bindings[b].client);
      if !known {
        assert db1.bindingTable - {bindings[b].client} == db1.bindingTable;
        return;
      }
      if bindings[b].timer.Some? {
        timers.Remove(bindings[b].timer.value);
      }
      bindings := bindings - {b};
    }

    // A request of a new client gets exactly what is free and good, and a binding if that is
    // anything. With the client's key taken, whatever is granted is taken back, and the
    // invariant is lost.
    method Request(client: Client, infos: seq<Addr>, now: Time)
      requires Valid() && OfSort(prefixes, infos) && Normal(now)
      modifies Repr()
      ensures Sound() && fresh(Repr() - old(Repr())) && State() == AddBinding(old(State()), client, infos, now)
      ensures client !in old(State()).bindingTable ==> Admitted(old(State()), State(), client, infos, now)
      ensures Valid() <==> client !in old(State()).bindingTable || !Grants(old(State()), infos)
    {
      hide HashTable.Valid, TimerQueue.Valid, Apart, Keyed, Named, Hooked, InvBut, Inv, AddAll, RemoveBinding,
           ArmBinding, Admitted, Grants, Lasting, Vanished;
      ghost var db := State();
      AddBindingFor(db, client, infos, now);
      var b := next;
      next := next + 1;
      bindings := bindings[b := Binding(client, None, [])];
      InvImplies(db);
      InsertAll(b, infos, now, {b});
      if bindings[b].list == [] {
        bindings := bindings - {b};
        return;
      }
      var isNew := EnterClient(b, client);
      if !isNew {
        DeleteBinding(b, {b});
        return;
      }
      StartBinding(b, now, {});
    }

    // Renew and rebind, or release and decline; whether the client has a binding.
    method Change(client: Client, infos: seq<Addr>, update: bool, now: Time) returns (known: bool)
      requires Valid() && OfSort(prefixes, infos) && Normal(now)
      modifies Repr()
      ensures Valid() && fresh(Repr() - old(Repr()))
              && State() == UpdateBinding(old(State()), client, infos, update, now)
      ensures known == (client in old(State()).bindingTable)
      ensures if known then Settled(old(State()), State(), client, infos, update, now) else State() == old(State())
    {
      hide Sound, HashTable.Valid, TimerQueue.Valid, Named, Hooked, InvBut, Inv, UpdateAll, ReleaseAll, Prune, Settle,
           Settled;
      ghost var db := State();
      InvImplies(db);
      var found := LookUpClient(client);
      if found.None? {
        return false;
      }
      var b := found.value;
      UpdateBindingFor(db, client, infos, update, now);
      if update {
        ReplaceAll(b, infos, now, {});
        DeleteUnlisted(b, infos, {});
      } else {
        DeleteListed(b, infos, {});
      }
      Conclude(b, now);
      return true;
    }

    // A binding without leases goes; any other starts to run anew.
    method Conclude(b: nat, now: Time)
      requires Working({}) && b in bindings && Normal(now)
      modifies Repr()
      ensures Working({}) && fresh(Repr() - old(Repr())) && State() == Settle(old(State()), b, now)
    {
      hide Sound, HashTable.Valid, TimerQueue.Valid, Named, Hooked, InvBut, RemoveBinding, ArmBinding, Lasting,
           Vanished;
      if bindings[b].list == [] {
        DeleteBinding(b, {});
      } else {
        StartBinding(b, now, {});
      }
    }

    // -------------------------------------------------------------------------
    // Expiry
    // -------------------------------------------------------------------------

    // A lease whose preferred lifetime has run out stays for the rest of the valid one; one that
    // has had that too is free. The answer says whether the timer goes on.
    method ExpireLease(l: nat, now: Time) returns (again: bool)
      requires Valid() && l in leases && leases[l].timer.Some? && Normal(now)
      modifies Repr()
      ensures Valid() && fresh(Repr() - old(Repr())) && (State(), again) == LeaseTimeout(old(State()), l, now)
      ensures again == (old(leases[l].state) == Active)
      ensures if again then Aged(old(State()), State(), l, now) else Freed(old(State()), State(), l)
    {
      hide HashTable.Valid, WellFormed, Timely, Apart, Keyed, InvBut, Inv, RemoveLease, SetTimer, TimeAdd, Freed, Aged;
      ghost var db := State();
      LeaseTimeoutFor(db, l, now);
      InvImplies(db);
      var lease := leases[l];
      if lease.state == Expired {
        Delete(l, {});
        return false;
      }
      leases := leases[l := lease.(state := Expired)];
      timers.Set(lease.timer.value, Time(Remaining(lease.addr), 0), now);
      return true;
    }

    method ExpireBinding(b: nat) returns (again: bool)
      requires Valid() && b in bindings
      modifies Repr()
      ensures Valid() && fresh(Repr() - old(Repr())) && (State(), again) == BindingTimeout(old(State()), b)
      ensures !again && Vanished(old(State()), State(), b)
    {
      hide HashTable.Valid, TimerQueue.Valid, Apart, Keyed, InvBut, Inv, RemoveBinding, Vanished;
      ghost var db := State();
      InvImplies(db);
      RemoveBindingInv(db, b);
      DeleteBinding(b, {});
      again := false;
    }

    // One pass over the timers. The clock is read anew for each callback; ticks counts the
    // readings. How long to sleep is what the pass over the timer list gives.
    method CheckTimers(clock: Clock, ticks: nat, now: Time) returns (wait: Option<Time>, ticks1: nat)
      requires Valid()
      modifies Repr()
      ensures Valid() && fresh(Repr() - old(Repr())) && Behaves(OnExpiry(clock))
      ensures Passing(clock, old(State()), ticks, now, State(), ticks1, wait)
    {
      hide Sound, HashTable.Valid, TimerQueue.Valid, Inv, Behaves, OnExpiry, WellFormed, PassedBy, Passing, Named,
           Hooked, Rest;
      ExpiryBehaves(clock);
      ghost var was := State();
      RestartTimers();
      RestartInv(was, State());
      ghost var start := State();
      PassBegins(clock, start, ticks, timers.order, now);
      var visit := timers.order;
      ticks1 := VisitAll(clock, ticks, visit, now, start, ticks);
      PassEnds(clock, was, start, ticks, visit, now, State(), ticks1);
      wait := Rest(timers.sentinel, now);
    }

    method RestartTimers()
      requires Sound()
      modifies timers
      ensures Sound() && Repr() == old(Repr())
      ensures State() == old(State()).(timers := old(State()).timers.(sentinel := TM_MAX))
    {
      hide HashTable.Valid, TimerQueue.Valid, Apart, Keyed, Named, Hooked;
      timers.Restart();
    }

    // The timers on the list when the pass began, one after the other.
    method VisitAll(clock: Clock, ticks: nat, visit: seq<nat>, now: Time, ghost start: Db, ghost ticks0: nat)
      returns (ticks1: nat)
      requires Valid() && Behaves(OnExpiry(clock))
      requires PassedBy(clock, start, ticks0, visit, now, State(), ticks, visit)
      modifies Repr()
      ensures Valid() && fresh(Repr() - old(Repr()))
      ensures PassedBy(clock, start, ticks0, visit, now, State(), ticks1, [])
    {
      hide Sound, HashTable.Valid, TimerQueue.Valid, Inv, Behaves, OnExpiry, WellFormed, PassedBy, Visited, Named,
           Hooked;
      ticks1 := ticks;
      var i := 0;
      assert visit[0..] == visit;
      while i < |visit|
        invariant 0 <= i <= |visit| && Valid() && fresh(Repr() - old(Repr()))
        invariant PassedBy(clock, start, ticks0, visit, now, State(), ticks1, visit[i..])
      {
        assert visit[i..][1..] == visit[i + 1..];
        PassGoesOn(clock, start, ticks0, visit, now, State(), ticks1, visit[i..]);
        ticks1 := VisitTimer(clock, ticks1, visit[i], now);
        i := i + 1;
      }
      assert visit[i..] == [];
    }

    // The callback of an unmarked timer meets a live record that has this timer.
    method RunCallback(t: nat, now: Time) returns (again: bool)
      requires Valid() && t in timers.recs && !timers.recs[t].marked && Normal(now)
      modifies Repr()
      ensures Valid() && fresh(Repr() - old(Repr()))
      ensures (State(), again) == Fire(old(State()), old(timers.recs[t].owner), now)
    {
      hide HashTable.Valid, TimerQueue.Valid, Apart, Keyed, InvBut, Inv, Freed, Aged, Vanished, LeaseTimeout,
           BindingTimeout;
      OwnerLives(State(), t);
      match timers.recs[t].owner {
        case OfLease(l) => again := ExpireLease(l, now);
        case OfBinding(b) => again := ExpireBinding(b);
      }
    }

    method DropTimer(t: nat)
      requires Sound() && t in timers.recs && timers.recs[t].marked
      modifies timers
      ensures Sound() && Repr() == old(Repr()) && State() == old(State()).(timers := Unlink(old(State()).timers, t))
    {
      hide HashTable.Valid, TimerQueue.Valid, Apart, Keyed, Unlink, Named, Hooked;
      timers.Drop(t);
    }

    method AwaitTimer(t: nat)
      requires Sound() && t in timers.recs
      modifies timers
      ensures Sound() && Repr() == old(Repr()) && State() == old(State()).(timers := Cover(old(State()).timers, t))
    {
      hide HashTable.Valid, TimerQueue.Valid, Apart, Keyed, Cover, Named, Hooked;
      timers.Await(t);
    }

    method VisitTimer(clock: Clock, ticks: nat, t: nat, now: Time) returns (ticks1: nat)
      requires Valid() && t in timers.recs && Behaves(OnExpiry(clock)) && WellFormed(State().timers)
      modifies Repr()
      ensures Valid() && fresh(Repr() - old(Repr()))
      ensures (State(), ticks1) == Visited(clock, old(State()), ticks, t, now)
    {
      hide Sound, HashTable.Valid, TimerQueue.Valid, Inv, Behaves, OnExpiry, WellFormed, Visited, Unlink, Cover, Fire,
           Named, Hooked;
      ghost var db := State();
      VisitedInv(clock, db, ticks, t, now);
      ticks1 := ticks;
      if timers.recs[t].marked {
        VisitedRests(clock, db, ticks, t, now);
        DropTimer(t);
      } else if Leq(timers.recs[t].due, now) {
        FiredStays(db, t, clock(ticks));
        VisitedFires(clock, db, ticks, t, now);
        var again := RunCallback(t, clock(ticks));
        ticks1 := ticks + 1;
        if again {
          AwaitTimer(t);
        } else {
          assert State().(timers := State().timers) == State();
        }
      } else {
        VisitedRests(clock, db, ticks, t, now);
        AwaitTimer(t);
      }
    }
  }

  // An address that is not of its sort is never looked up; it is taken for one that is.
  function AsSort(prefixes: Sorting, a: Addr): (r: Addr)
    ensures InSort(prefixes, r) && r.ip == a.ip
    ensures InSort(prefixes, a) ==> r == a
  {
    if InSort(prefixes, a) then a else a.(kind := if prefixes(a.ip) then IaPd else IaNa)
  }

  lemma Sorted(prefixes: Sorting)
    ensures forall d: Slot, a: Addr ::
              LeaseMatch(d.at, AsSort(prefixes, a)) <==> KeyOf(AsSort(prefixes, d.at)) == KeyOf(AsSort(prefixes, a))
    ensures forall a: Addr, c: Addr :: KeyOf(AsSort(prefixes, a)) == KeyOf(AsSort(prefixes, c)) ==> a.ip == c.ip
  {
    forall d: Slot, a: Addr
      ensures LeaseMatch(d.at, AsSort(prefixes, a)) <==> KeyOf(AsSort(prefixes, d.at)) == KeyOf(AsSort(prefixes, a))
    {
      SortIsCoherent(AsSort(prefixes, d.at), AsSort(prefixes, a));
    }
  }

  lemma NamedAdds(m: map<Key, Slot>, k: Key, d: Slot)
    ensures Named(m[k := d]) == Named(m)[k := d.l]
  {
  }

  lemma NamedCuts(m: map<Key, Slot>, k: Key)
    ensures Named(m - {k}) == Named(m) - {k}
  {
  }

  lemma HookedAdds(m: map<Client, Hook>, c: Client, d: Hook)
    ensures Hooked(m[c := d]) == Hooked(m)[c := d.b]
  {
  }

  lemma HookedCuts(m: map<Client, Hook>, c: Client)
    ensures Hooked(m - {c}) == Hooked(m) - {c}
  {
  }

  lemma EmptyInv()
    ensures Inv(NewDb())
  {
    StartInv();
    assert Whole(Server(NewDb(), 0), NewList()) == NewDb();
  }

  // ---------------------------------------------------------------------------
  // What the operations keep, for every key at once
  // ---------------------------------------------------------------------------

  // The address went to b if it was good and nobody had it; other bindings are as they were.
  ghost predicate Took(was: Db, db: Db, b: nat, a: Addr) {
    && OthersKept(was, db, b)
    && forall k :: Holder(db, k)
        == if Good(a) && k == KeyOf(a) && Holder(was, k).None? then Some(Held(b, a)) else Holder(was, k)
  }

  // The lease is gone, its address free and its timer marked.
  ghost predicate Freed(was: Db, db: Db, l: nat)
    requires l in was.leases
  {
    var lease := was.leases[l];
    && OthersKept(was, db, lease.binding) && db.leases == was.leases - {l}
    && (forall k :: Holder(db, k) == if k == KeyOf(lease.addr) then None else Holder(was, k))
    && (lease.timer.Some? ==> lease.timer.value in db.timers.recs && db.timers.recs[lease.timer.value].marked)
  }

  // The lease is held as the reply says, or free if the reply is not good.
  ghost predicate Replaced(was: Db, db: Db, l: nat, a: Addr)
    requires l in was.leases
  {
    var b := was.leases[l].binding;
    && OthersKept(was, db, b)
    && forall k :: Holder(db, k) == if k != KeyOf(a) then Holder(was, k) else if Good(a) then Some(Held(b, a)) else None
  }

  lemma AddLeaseFor(db: Db, b: nat, a: Addr, now: Time, loose: set<nat>)
    requires InvBut(db, loose) && b in db.bindings
    ensures InvBut(AddLease(db, b, a, now), loose) && Took(db, AddLease(db, b, a, now), b, a)
  {
    hide InvBut, AddLease, Holder, Good, OthersKept, KeyOf;
    AddLeaseKeeps(db, b, a, now, loose);
    FreeIsUnheld(db, KeyOf(a), loose);
    forall k ensures Holder(AddLease(db, b, a, now), k)
        == if Good(a) && k == KeyOf(a) && Holder(db, k).None? then Some(Held(b, a)) else Holder(db, k)
    {
      AddLeaseHolds(db, b, a, now, loose, k);
    }
  }

  lemma RemoveLeaseFor(db: Db, l: nat, loose: set<nat>)
    requires InvBut(db, loose) && l in db.leases
    ensures InvBut(RemoveLease(db, l), loose) && Freed(db, RemoveLease(db, l), l)
    ensures var lease := db.leases[l];
            && KeyOf(lease.addr) in db.leaseTable && lease.binding in db.bindings
            && (lease.timer.Some? ==> lease.timer.value in db.timers.recs)
  {
    hide InvBut, Holder, OthersKept, KeyOf, Without;
    RemoveLeaseKeeps(db, l, loose);
    LeaseKnown(db, l, loose);
    OwnAlarm(db, l, loose);
    forall k ensures Holder(RemoveLease(db, l), k) == if k == KeyOf(db.leases[l].addr) then None else Holder(db, k) {
      RemoveLeaseFrees(db, l, loose, k);
    }
  }

  lemma UpdateLeaseFor(db: Db, l: nat, a: Addr, now: Time, loose: set<nat>)
    requires InvBut(db, loose) && l in db.leases && KeyOf(a) == KeyOf(db.leases[l].addr)
    ensures InvBut(UpdateLease(db, l, a, now), loose) && Replaced(db, UpdateLease(db, l, a, now), l, a)
    ensures db.leases[l].timer.Some? ==> db.leases[l].timer.value in db.timers.recs
  {
    hide InvBut, UpdateLease, Holder, Good, OthersKept, KeyOf;
    UpdateLeaseKeeps(db, l, a, now, loose);
    OwnAlarm(db, l, loose);
    forall k ensures Holder(UpdateLease(db, l, a, now), k)
        == if k != KeyOf(a) then Holder(db, k) else if Good(a) then Some(Held(db.leases[l].binding, a)) else None
    {
      UpdateLeaseHolds(db, l, a, now, loose, k);
    }
  }

  lemma OwnAlarm(db: Db, l: nat, loose: set<nat>)
    requires InvBut(db, loose) && l in db.leases
    ensures db.leases[l].timer.Some? ==> db.leases[l].timer.value in db.timers.recs
  {
    hide Listing, Indexed, Registered, WellFormed;
  }

  lemma ListedLive(db: Db, b: nat, loose: set<nat>)
    requires InvBut(db, loose) && b in db.bindings
    ensures forall i :: 0 <= i < |db.bindings[b].list| ==> db.bindings[b].list[i] in db.leases
  {
    hide Indexed, Registered, Timed, Distinct;
    forall i | 0 <= i < |db.bindings[b].list| ensures db.bindings[b].list[i] in db.leases {
      assert On(db.bindings, b, db.bindings[b].list[i]);
    }
  }

  lemma HeldByMax(db: Db, b: nat, loose: set<nat>)
    requires InvBut(db, loose) && b in db.bindings
    ensures forall k :: HeldBy(db, k, b) ==> Holder(db, k).value.addr.valid <= MaxValid(db, db.bindings[b].list)
  {
    hide InvBut, MaxValid, Distinct;
    ListedLive(db, b, loose);
    OwnListStart(db, b, loose);
    MaxValidIsMax(db, db.bindings[b].list);
  }

  // Whether a lease is on the reply.
  method OnList(prefixes: Sorting, infos: seq<Addr>, a: Addr) returns (listed: bool)
    requires OfSort(prefixes, infos) && InSort(prefixes, a)
    ensures listed == Listed(infos, a)
  {
    var i := 0;
    while i < |infos|
      invariant 0 <= i <= |infos|
      invariant forall j :: 0 <= j < i ==> KeyOf(infos[j]) != KeyOf(a)
    {
      SortIsCoherent(a, infos[i]);
      if LeaseMatch(a, infos[i]) {
        return true;
      }
      i := i + 1;
    }
    return false;
  }

  lemma OwnListFirst(db: Db, b: nat, list: seq<nat>)
    requires OwnList(db, b, list) && list != []
    ensures list[0] in db.leases
  {
  }

  lemma FreedLeases(was: Db, db: Db, l: nat)
    requires l in was.leases && Freed(was, db, l)
    ensures db.leases == was.leases - {l} && db.bindings.Keys == was.bindings.Keys
  {
  }

  lemma TookBindings(was: Db, db: Db, b: nat, a: Addr)
    requires Took(was, db, b, a)
    ensures db.bindings.Keys == was.bindings.Keys
  {
  }

  lemma ReplacedBindings(was: Db, db: Db, l: nat, a: Addr)
    requires l in was.leases && Replaced(was, db, l, a)
    ensures db.bindings.Keys == was.bindings.Keys
  {
  }

  // The binding is gone, and with it everything it held; nobody else lost anything.
  ghost predicate Vanished(was: Db, db: Db, b: nat) {
    && db.bindings.Keys == was.bindings.Keys - {b}
    && (forall x :: x in db.bindings ==> db.bindings[x] == was.bindings[x])
    && (forall k :: Holder(db, k) == Bereft(b, Holder(was, k)))
  }

  // What a request of a new client leaves.
  ghost predicate Admitted(was: Db, db: Db, client: Client, infos: seq<Addr>, now: Time) {
    var b := was.next;
    && Standing(db, b, now) && (b in db.bindings ==> client in db.bindingTable && db.bindingTable[client] == b)
    && (b in db.bindings <==> Grants(was, infos))
    && (forall k :: Holder(db, k) == Granted(infos, b, k, Holder(was, k)))
  }

  // What a renewal or release leaves of the client's binding.
  ghost predicate Settled(was: Db, db: Db, client: Client, infos: seq<Addr>, update: bool, now: Time)
    requires client in was.bindingTable
  {
    var b := was.bindingTable[client];
    && Standing(db, b, now) && db.bindings.Keys - {b} == was.bindings.Keys - {b}
    && (forall k :: Holder(db, k) == Updated(infos, update, b, k, Holder(was, k)))
  }

  lemma ArmBindingFor(db: Db, b: nat, now: Time, loose: set<nat>)
    requires InvBut(db, loose) && b in db.bindings
    ensures InvBut(ArmBinding(db, b, now), loose)
    ensures db.bindings[b].list != [] ==> Lasting(ArmBinding(db, b, now), b, now)
    ensures db.bindings[b].timer.Some? ==> db.bindings[b].timer.value in db.timers.recs
  {
    hide InvBut, ArmBinding, Lasting;
    ArmBindingKeeps(db, b, now, loose);
    BindingAlarm(db, b, loose);
    if db.bindings[b].list != [] {
      ArmBindingLasts(db, b, now, loose);
    }
  }

  lemma BindingAlarm(db: Db, b: nat, loose: set<nat>)
    requires InvBut(db, loose) && b in db.bindings
    ensures db.bindings[b].timer.Some? ==> db.bindings[b].timer.value in db.timers.recs
  {
    hide Listing, Indexed, Registered, WellFormed;
  }

  lemma RemoveBindingFor(db: Db, b: nat, loose: set<nat>)
    requires InvBut(db, loose) && b in db.bindings
    ensures var db1 := RemoveAll(db, db.bindings[b].list);
            b in db1.bindings && (db1.bindings[b].timer.Some? ==> db1.bindings[b].timer.value in db1.timers.recs)
    ensures b !in loose ==> InvBut(RemoveBinding(db, b), loose) && Vanished(db, RemoveBinding(db, b), b)
  {
    hide InvBut, RemoveAll, Holder, OthersKept;
    RemoveAllOf(db, b, loose);
    var db1 := RemoveAll(db, db.bindings[b].list);
    OthersKeptMeans(db, db1, b);
    BindingAlarm(db1, b, loose);
    if b !in loose {
      RemoveBindingKeeps(db, b, loose);
    }
  }

  lemma AddBindingFor(db: Db, client: Client, infos: seq<Addr>, now: Time)
    requires Inv(db)
    ensures var db0, b := Begun(db, client), db.next;
            var db1 := AddAll(db0, b, infos, now);
            && InvBut(db0, {b}) && InvBut(db1, {b}) && b in db1.bindings && db1.bindings[b].client == client
            && db1.bindingTable == db.bindingTable
            && (client !in db1.bindingTable ==> InvBut(db1.(bindingTable := db1.bindingTable[client := b]), {}))
    ensures client !in db.bindingTable ==> Admitted(db, AddBinding(db, client, infos, now), client, infos, now)
    ensures Inv(AddBinding(db, client, infos, now)) <==> client !in db.bindingTable || !Grants(db, infos)
  {
    hide InvBut, Inv, AddAll, AddBinding, Standing, Holder, OthersKept, Grants, FirstGood;
    BeginKeeps(db, client);
    var db0, b := Begun(db, client), db.next;
    AddAllKeeps(db0, b, infos, now, {b});
    var db1 := AddAll(db0, b, infos, now);
    OthersKeptMeans(db0, db1, b);
    if client !in db.bindingTable {
      RegisterKeeps(db1, b);
      AddExactly(db, client, infos, now);
    }
    AddKeepsExactly(db, client, infos, now);
  }

  lemma UpdateBindingFor(db: Db, client: Client, infos: seq<Addr>, update: bool, now: Time)
    requires Inv(db) && client in db.bindingTable
    ensures var b, db1 := db.bindingTable[client], UpdateBinding(db, client, infos, update, now);
            b in db.bindings && Inv(db1) && Settled(db, db1, client, infos, update, now)
    ensures var b := db.bindingTable[client];
            var db1 := if update then UpdateAll(db, b, infos, now) else ReleaseAll(db, b, infos);
            b in db1.bindings && (update ==> b in Prune(db1, db1.bindings[b].list, infos).bindings)
  {
    hide InvBut, Inv, UpdateBinding, UpdateAll, ReleaseAll, Prune, Standing, Holder, Updated;
    TableLeads(db, client);
    InvImplies(db);
    UpdateExactly(db, client, infos, update, now);
    var b := db.bindingTable[client];
    ChangeKeeps(db, b, infos, update, now, {});
    var db1 := if update then UpdateAll(db, b, infos, now) else ReleaseAll(db, b, infos);
    OthersKeptMeans(db, if update then Prune(db1, db1.bindings[b].list, infos) else db1, b);
  }

  // The lease is as it was but for its age, and is due when the rest of its valid lifetime is over.
  ghost predicate Aged(was: Db, db: Db, l: nat, now: Time)
    requires l in was.leases
  {
    var lease := was.leases[l];
    && db.leases == was.leases[l := lease.(state := Expired)] && db.bindings == was.bindings
    && (forall k :: Holder(db, k) == Holder(was, k))
    && lease.timer.Some? && lease.timer.value in db.timers.recs
    && db.timers.recs[lease.timer.value].due == After(now, Remaining(lease.addr))
  }

  lemma LeaseTimeoutFor(db: Db, l: nat, now: Time)
    requires Inv(db) && l in db.leases && db.leases[l].timer.Some?
    ensures db.leases[l].timer.value in db.timers.recs
    ensures var (db1, again) := LeaseTimeout(db, l, now);
            Inv(db1) && if again then Aged(db, db1, l, now) else Freed(db, db1, l)
  {
    hide InvBut, Inv, RemoveLease, Freed, After;
    InvImplies(db);
    OwnAlarm(db, l, {});
    RemoveLeaseFor(db, l, {});
    RemoveLeaseInv(db, l);
    var due := After(now, Remaining(db.leases[l].addr));
    ExpireKeeps(db, l, due);
    var leases1 := db.leases[l := db.leases[l].(state := Expired)];
    assert db.(leases := leases1).(timers := SetTimer(db.timers, db.leases[l].timer.value, due))
        == db.(leases := leases1, timers := SetTimer(db.timers, db.leases[l].timer.value, due));
  }

  // ---------------------------------------------------------------------------
  // A pass in place
  // ---------------------------------------------------------------------------

  // What the visit of one timer makes of the database.
  ghost function Visited(clock: Clock, db: Db, ticks: nat, t: nat, now: Time): (Db, nat)
    requires Behaves(OnExpiry(clock)) && WellFormed(db.timers) && t in db.timers.recs
  {
    var v := Visit(OnExpiry(clock), Server(db, ticks), db.timers, t, now);
    (Whole(v.st, v.tl), v.st.ticks)
  }

  // What a whole pass makes of it.
  ghost predicate Passing(clock: Clock, was: Db, ticks: nat, now: Time, db: Db, ticks1: nat, wait: Option<Time>)
    requires Behaves(OnExpiry(clock))
  {
    WellFormed(was.timers) &&
    var p := Check(OnExpiry(clock), Server(was, ticks), was.timers, now);
    db == Whole(p.st, p.tl) && ticks1 == p.st.ticks && wait == Rest(p.tl.sentinel, now)
  }

  // With the timers of rest still to visit, the pass that began at start ends the same.
  ghost predicate PassedBy(clock: Clock, start: Db, ticks: nat, visit: seq<nat>, now: Time, db: Db, ticks1: nat,
                           rest: seq<nat>)
    requires Behaves(OnExpiry(clock))
  {
    && Pending(start.timers, visit) && Pending(db.timers, rest)
    && var p, q := Pass(OnExpiry(clock), Server(start, ticks), start.timers, visit, now),
                   Pass(OnExpiry(clock), Server(db, ticks1), db.timers, rest, now);
       Whole(p.st, p.tl) == Whole(q.st, q.tl) && p.st.ticks == q.st.ticks
  }

  lemma ExpiryBehaves(clock: Clock)
    ensures Behaves(OnExpiry(clock))
  {
    CallbacksBehave(n => Release(Client([], IaNa, 0), []), clock);
  }

  lemma RestartInv(was: Db, db: Db)
    requires Inv(was) && db == was.(timers := was.timers.(sentinel := TM_MAX))
    ensures Inv(db) && WellFormed(was.timers) && WellFormed(db.timers) && db.timers.order == was.timers.order
  {
    hide Inv, WellFormed;
    SentinelInv(was, TM_MAX);
    InvWellFormed(was);
    InvWellFormed(db);
  }

  lemma WholeTimers(s: Server, tl: TimerList<Owner>)
    ensures Whole(s, tl).timers == tl
  {
  }

  lemma WholeSame(s1: Server, s2: Server, tl: TimerList<Owner>, tl1: TimerList<Owner>)
    requires Whole(s1, tl) == Whole(s2, tl)
    ensures Whole(s1, tl1) == Whole(s2, tl1)
  {
    assert s1.db.(timers := tl).(timers := tl1) == s1.db.(timers := tl1);
    assert s2.db.(timers := tl).(timers := tl1) == s2.db.(timers := tl1);
  }

  // The copy of the timers in the server's state is not looked at.
  lemma VisitSame(clock: Clock, s1: Server, s2: Server, tl: TimerList<Owner>, t: nat, now: Time)
    requires Behaves(OnExpiry(clock)) && WellFormed(tl) && t in tl.recs
    requires Whole(s1, tl) == Whole(s2, tl) && s1.ticks == s2.ticks
    ensures var v1, v2 := Visit(OnExpiry(clock), s1, tl, t, now), Visit(OnExpiry(clock), s2, tl, t, now);
            v1.tl == v2.tl && Whole(v1.st, v1.tl) == Whole(v2.st, v2.tl) && v1.st.ticks == v2.st.ticks
  {
    hide *;
    var v1, v2 := Visit(OnExpiry(clock), s1, tl, t, now), Visit(OnExpiry(clock), s2, tl, t, now);
    WholeTimers(v1.st, v1.tl);
    WholeTimers(v2.st, v2.tl);
    if tl.recs[t].marked || !Leq(tl.recs[t].due, now) {
      WholeSame(s1, s2, tl, if tl.recs[t].marked then Unlink(tl, t) else Cover(tl, t));
      VisitRests(clock, s1, tl, t, now);
      VisitRests(clock, s2, tl, t, now);
    } else {
      VisitFires(clock, s1, tl, t, now);
      VisitFires(clock, s2, tl, t, now);
    }
  }

  lemma {:induction false} PassSame(clock: Clock, s1: Server, s2: Server, tl: TimerList<Owner>, rest: seq<nat>,
                                    now: Time)
    requires Behaves(OnExpiry(clock)) && Pending(tl, rest)
    requires Whole(s1, tl) == Whole(s2, tl) && s1.ticks == s2.ticks
    ensures var p1, p2 := Pass(OnExpiry(clock), s1, tl, rest, now), Pass(OnExpiry(clock), s2, tl, rest, now);
            p1.tl == p2.tl && Whole(p1.st, p1.tl) == Whole(p2.st, p2.tl) && p1.st.ticks == p2.st.ticks
    decreases |rest|
  {
    hide Behaves, WellFormed, Visit, OnExpiry;
    if rest != [] {
      VisitSame(clock, s1, s2, tl, rest[0], now);
      VisitKeepsPending(OnExpiry(clock), s1, tl, rest, now);
      var v1, v2 := Visit(OnExpiry(clock), s1, tl, rest[0], now), Visit(OnExpiry(clock), s2, tl, rest[0], now);
      PassSame(clock, v1.st, v2.st, v1.tl, rest[1..], now);
    }
  }

  lemma PassBegins(clock: Clock, start: Db, ticks: nat, visit: seq<nat>, now: Time)
    requires Behaves(OnExpiry(clock)) && WellFormed(start.timers) && visit == start.timers.order
    ensures PassedBy(clock, start, ticks, visit, now, start, ticks, visit)
  {
    hide Behaves, Pass, OnExpiry;
    OrderPending(start.timers);
  }

  lemma PassGoesOn(clock: Clock, start: Db, ticks: nat, visit: seq<nat>, now: Time, db: Db, ticks1: nat, rest: seq<nat>)
    requires Behaves(OnExpiry(clock)) && rest != [] && PassedBy(clock, start, ticks, visit, now, db, ticks1, rest)
    ensures WellFormed(db.timers) && rest[0] in db.timers.recs
    ensures var (db2, ticks2) := Visited(clock, db, ticks1, rest[0], now);
            PassedBy(clock, start, ticks, visit, now, db2, ticks2, rest[1..])
  {
    hide Behaves, WellFormed, Visit, OnExpiry;
    var v := Visit(OnExpiry(clock), Server(db, ticks1), db.timers, rest[0], now);
    VisitKeepsPending(OnExpiry(clock), Server(db, ticks1), db.timers, rest, now);
    PassSame(clock, v.st, Server(Whole(v.st, v.tl), v.st.ticks), v.tl, rest[1..], now);
  }

  lemma PassEnds(clock: Clock, was: Db, start: Db, ticks: nat, visit: seq<nat>, now: Time, db: Db, ticks1: nat)
    requires Behaves(OnExpiry(clock)) && WellFormed(was.timers)
    requires start == was.(timers := was.timers.(sentinel := TM_MAX)) && visit == was.timers.order
    requires PassedBy(clock, start, ticks, visit, now, db, ticks1, [])
    ensures Passing(clock, was, ticks, now, db, ticks1, Rest(db.timers.sentinel, now))
  {
    hide Behaves, WellFormed, Visit, OnExpiry;
    PassSame(clock, Server(was, ticks), Server(start, ticks), start.timers, visit, now);
    var p := Pass(OnExpiry(clock), Server(was, ticks), start.timers, visit, now);
    assert Whole(p.st, p.tl).timers == p.tl;
  }

  lemma VisitedIs(clock: Clock, db: Db, ticks: nat, t: nat, now: Time)
    requires Behaves(OnExpiry(clock)) && WellFormed(db.timers) && t in db.timers.recs
    ensures var v := Visit(OnExpiry(clock), Server(db, ticks), db.timers, t, now);
            Visited(clock, db, ticks, t, now) == (Whole(v.st, v.tl), v.st.ticks)
  {
    hide Behaves, WellFormed, OnExpiry, Visit, Whole;
  }

  lemma VisitedInv(clock: Clock, db: Db, ticks: nat, t: nat, now: Time)
    requires Behaves(OnExpiry(clock)) && Inv(db) && WellFormed(db.timers) && t in db.timers.recs
    ensures Inv(Visited(clock, db, ticks, t, now).0)
  {
    hide Behaves, WellFormed, Inv, OnExpiry, Visit;
    assert Whole(Server(db, ticks), db.timers) == db;
    VisitInv(clock, Server(db, ticks), db.timers, t, now);
  }

  lemma VisitedRests(clock: Clock, db: Db, ticks: nat, t: nat, now: Time)
    requires Behaves(OnExpiry(clock)) && WellFormed(db.timers) && t in db.timers.recs
    requires db.timers.recs[t].marked || !Leq(db.timers.recs[t].due, now)
    ensures Visited(clock, db, ticks, t, now)
         == (db.(timers := if db.timers.recs[t].marked then Unlink(db.timers, t) else Cover(db.timers, t)), ticks)
  {
    hide Behaves, WellFormed, OnExpiry, Visit, Unlink, Cover;
    VisitRests(clock, Server(db, ticks), db.timers, t, now);
  }

  lemma VisitedFires(clock: Clock, db: Db, ticks: nat, t: nat, now: Time)
    requires Behaves(OnExpiry(clock)) && WellFormed(db.timers) && t in db.timers.recs
    requires !db.timers.recs[t].marked && Leq(db.timers.recs[t].due, now)
    requires t in Fire(db, db.timers.recs[t].owner, clock(ticks)).0.timers.recs
    ensures var fired := Fire(db, db.timers.recs[t].owner, clock(ticks));
            Visited(clock, db, ticks, t, now)
            == (fired.0.(timers := if fired.1 then Cover(fired.0.timers, t) else fired.0.timers), ticks + 1)
  {
    hide *;
    WholeIs(db, ticks);
    VisitedIs(clock, db, ticks, t, now);
    VisitFires(clock, Server(db, ticks), db.timers, t, now);
  }
}
