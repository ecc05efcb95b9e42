/** Whole runs of the DHCPv6 server: requests, renewals, releases and passes over the timers. */
module DhcpServer {
  import opened Bytes
  import opened DhcpTimers
  import opened DhcpLeases
  import opened DhcpInvariant
  import opened DhcpBindings

  // ---------------------------------------------------------------------------
  // Timers evolve
  // ---------------------------------------------------------------------------

  lemma DisarmEvolves(db: Db, timer: Option<nat>)
    ensures Evolves(db.timers, Disarm(db, timer))
  {
    EvolvesItself(db.timers);
    if timer.Some? {
      RemoveEvolves(db.timers, timer.value);
    }
    hide Evolves;
  }

  lemma RemoveLeaseEvolves(db: Db, l: nat)
    requires l in db.leases
    ensures Evolves(db.timers, RemoveLease(db, l).timers)
  {
    hide Evolves, Disarm, Without;
    EvolvesItself(db.timers);
    DisarmEvolves(db, db.leases[l].timer);
  }

  lemma {:induction false} SweepEvolves(db: Db, list: seq<nat>, infos: Option<seq<Addr>>)
    ensures Evolves(db.timers, Sweep(db, list, infos).timers)
    decreases |list|
  {
    hide Evolves, RemoveLease, Listed;
    EvolvesItself(db.timers);
    if list != [] {
      if list[0] in db.leases {
        RemoveLeaseEvolves(db, list[0]);
      }
      var db1 := if list[0] in db.leases
          && (infos.Some? ==> !Listed(infos.value, db.leases[list[0]].addr)) then RemoveLease(db, list[0]) else db;
      SweepEvolves(db1, list[1..], infos);
      EvolvesOn(db.timers, db1.timers, Sweep(db1, list[1..], infos).timers);
    }
  }

  lemma RemoveBindingEvolves(db: Db, b: nat)
    requires b in db.bindings
    ensures Evolves(db.timers, RemoveBinding(db, b).timers)
  {
    hide Evolves, RemoveAll, Sweep, Disarm;
    var list := db.bindings[b].list;
    SweepIs(db, list, []);
    SweepEvolves(db, list, None);
    var db1 := RemoveAll(db, list);
    if b in db1.bindings {
      DisarmEvolves(db1, db1.bindings[b].timer);
      EvolvesItself(db1.timers);
      EvolvesOn(db.timers, db1.timers, RemoveBinding(db, b).timers);
    }
  }

  lemma AfterIsNormal(now: Time, seconds: nat)
    requires Normal(now)
    ensures Normal(After(now, seconds))
  {
  }

  // A timer for a record, new or old, and set.
  lemma ArmEvolves(tl: TimerList<Owner>, owner: Owner, timer: Option<nat>, due: Time)
    requires WellFormed(tl) && Normal(due)
    ensures var (tl1, t) := if timer.Some? then (tl, timer.value) else (AddTimer(tl, owner), tl.next);
            Evolves(tl, SetTimer(tl1, t, due))
  {
    hide Evolves, WellFormed;
    AddEvolves(tl, owner);
    EvolvesItself(tl);
    var tl1, t := if timer.Some? then tl else AddTimer(tl, owner), if timer.Some? then timer.value else tl.next;
    SetEvolves(tl1, t, due);
    EvolvesOn(tl, tl1, SetTimer(tl1, t, due));
  }

  lemma ArmLeaseEvolves(db: Db, l: nat, now: Time)
    requires WellFormed(db.timers) && Normal(now) && l in db.leases
    ensures Evolves(db.timers, ArmLease(db, l, now).timers)
  {
    hide Evolves, WellFormed, After, AddTimer, SetTimer;
    EvolvesItself(db.timers);
    AfterIsNormal(now, db.leases[l].addr.prefer);
    ArmEvolves(db.timers, OfLease(l), db.leases[l].timer, After(now, db.leases[l].addr.prefer));
  }

  lemma ArmBindingEvolves(db: Db, b: nat, now: Time)
    requires WellFormed(db.timers) && Normal(now) && b in db.bindings
    ensures Evolves(db.timers, ArmBinding(db, b, now).timers)
  {
    hide Evolves, WellFormed, After, AddTimer, SetTimer, MaxValid;
    var due := After(now, MaxValid(db, db.bindings[b].list));
    AfterIsNormal(now, MaxValid(db, db.bindings[b].list));
    ArmEvolves(db.timers, OfBinding(b), db.bindings[b].timer, due);
  }

  lemma AddLeaseEvolves(db: Db, b: nat, a: Addr, now: Time)
    requires WellFormed(db.timers) && Normal(now) && b in db.bindings
    ensures Evolves(db.timers, AddLease(db, b, a, now).timers)
  {
    hide Evolves, WellFormed, ArmLease;
    EvolvesItself(db.timers);
    if Good(a) && KeyOf(a) !in db.leaseTable {
      var l, binding := db.next, db.bindings[b];
      ArmLeaseEvolves(db.(leases := db.leases[l := Lease(a, Active, None, b)],
                          leaseTable := db.leaseTable[KeyOf(a) := l],
                          bindings := db.bindings[b := binding.(list := binding.list + [l])],
                          next := l + 1), l, now);
    }
  }

  lemma UpdateOneEvolves(db: Db, b: nat, a: Addr, now: Time)
    requires WellFormed(db.timers) && Normal(now) && b in db.bindings
    ensures Evolves(db.timers, UpdateOne(db, b, a, now).timers)
  {
    hide Evolves, WellFormed, ArmLease, AddLease, RemoveLease, FindLease;
    AddLeaseEvolves(db, b, a, now);
    var r := FindLease(db, b, a);
    if r.Some? && r.value in db.leases {
      RemoveLeaseEvolves(db, r.value);
      ArmLeaseEvolves(db.(leases := db.leases[r.value := db.leases[r.value].(addr := a, state := Active)]), r.value,
                      now);
    }
  }

  lemma EvolvesWellFormed(a: TimerList<Owner>, b: TimerList<Owner>)
    requires Evolves(a, b) && WellFormed(a)
    ensures WellFormed(b)
  {
    hide Timely;
  }

  lemma {:induction false} UpdateAllEvolves(db: Db, b: nat, infos: seq<Addr>, now: Time)
    requires WellFormed(db.timers) && Normal(now) && b in db.bindings
    ensures Evolves(db.timers, UpdateAll(db, b, infos, now).timers)
    decreases |infos|
  {
    hide Evolves, WellFormed, UpdateOne;
    EvolvesItself(db.timers);
    if infos != [] {
      var db1 := UpdateOne(db, b, infos[0], now);
      UpdateOneEvolves(db, b, infos[0], now);
      EvolvesWellFormed(db.timers, db1.timers);
      if b in db1.bindings {
        UpdateAllEvolves(db1, b, infos[1..], now);
        EvolvesOn(db.timers, db1.timers, UpdateAll(db1, b, infos[1..], now).timers);
      }
    }
  }

  lemma {:induction false} AddAllEvolves(db: Db, b: nat, infos: seq<Addr>, now: Time)
    requires WellFormed(db.timers) && Normal(now) && b in db.bindings
    ensures Evolves(db.timers, AddAll(db, b, infos, now).timers)
    decreases |infos|
  {
    hide Evolves, WellFormed, AddLease;
    EvolvesItself(db.timers);
    if infos != [] {
      var db1 := AddLease(db, b, infos[0], now);
      AddLeaseEvolves(db, b, infos[0], now);
      EvolvesWellFormed(db.timers, db1.timers);
      if b in db1.bindings {
        AddAllEvolves(db1, b, infos[1..], now);
        EvolvesOn(db.timers, db1.timers, AddAll(db1, b, infos[1..], now).timers);
      }
    }
  }

  lemma {:induction false} ReleaseAllEvolves(db: Db, b: nat, infos: seq<Addr>)
    requires b in db.bindings
    ensures Evolves(db.timers, ReleaseAll(db, b, infos).timers)
    decreases |infos|
  {
    hide Evolves, RemoveLease, FindLease;
    EvolvesItself(db.timers);
    if infos != [] {
      var r := FindLease(db, b, infos[0]);
      if r.Some? && r.value in db.leases {
        RemoveLeaseEvolves(db, r.value);
      }
      var db1 := if r.Some? && r.value in db.leases then RemoveLease(db, r.value) else db;
      if b in db1.bindings {
        ReleaseAllEvolves(db1, b, infos[1..]);
        EvolvesOn(db.timers, db1.timers, ReleaseAll(db1, b, infos[1..]).timers);
      }
    }
  }

  lemma SettleEvolves(db: Db, b: nat, now: Time)
    requires WellFormed(db.timers) && Normal(now) && b in db.bindings
    ensures Evolves(db.timers, Settle(db, b, now).timers)
  {
    hide Evolves, WellFormed, RemoveBinding, ArmBinding;
    RemoveBindingEvolves(db, b);
    ArmBindingEvolves(db, b, now);
  }

  lemma UpdateBindingEvolves(db: Db, client: Client, infos: seq<Addr>, update: bool, now: Time)
    requires WellFormed(db.timers) && Normal(now)
    ensures Evolves(db.timers, UpdateBinding(db, client, infos, update, now).timers)
  {
    hide Evolves, WellFormed, UpdateAll, ReleaseAll, Prune, Sweep, Settle;
    EvolvesItself(db.timers);
    if client in db.bindingTable && db.bindingTable[client] in db.bindings {
      var b := db.bindingTable[client];
      UpdateAllEvolves(db, b, infos, now);
      ReleaseAllEvolves(db, b, infos);
      var db1 := if update then UpdateAll(db, b, infos, now) else ReleaseAll(db, b, infos);
      EvolvesWellFormed(db.timers, db1.timers);
      if b in db1.bindings {
        var list := db1.bindings[b].list;
        SweepIs(db1, list, infos);
        SweepEvolves(db1, list, Some(infos));
        EvolvesItself(db1.timers);
        var db2 := if update then Prune(db1, list, infos) else db1;
        EvolvesWellFormed(db1.timers, db2.timers);
        EvolvesOn(db.timers, db1.timers, db2.timers);
        if b in db2.bindings {
          SettleEvolves(db2, b, now);
          EvolvesOn(db.timers, db2.timers, Settle(db2, b, now).timers);
        }
      }
    }
  }

  lemma AddBindingEvolves(db: Db, client: Client, infos: seq<Addr>, now: Time)
    requires WellFormed(db.timers) && Normal(now)
    ensures Evolves(db.timers, AddBinding(db, client, infos, now).timers)
  {
    hide Evolves, WellFormed, AddAll, RemoveBinding, ArmBinding;
    var b, db0 := db.next, Begun(db, client);
    AddAllEvolves(db0, b, infos, now);
    var db1 := AddAll(db0, b, infos, now);
    EvolvesWellFormed(db.timers, db1.timers);
    if b in db1.bindings {
      RemoveBindingEvolves(db1, b);
      EvolvesOn(db.timers, db1.timers, RemoveBinding(db1, b).timers);
      var db2 := db1.(bindingTable := db1.bindingTable[client := b]);
      ArmBindingEvolves(db2, b, now);
      EvolvesOn(db.timers, db1.timers, ArmBinding(db2, b, now).timers);
    }
  }

  lemma FireEvolves(db: Db, owner: Owner, now: Time)
    requires WellFormed(db.timers) && Normal(now)
    ensures Evolves(db.timers, Fire(db, owner, now).0.timers)
  {
    hide Evolves, WellFormed, RemoveLease, RemoveBinding, After, SetTimer;
    EvolvesItself(db.timers);
    match owner
    case OfLease(l) =>
      if l in db.leases {
        var lease := db.leases[l];
        RemoveLeaseEvolves(db, l);
        if lease.timer.Some? {
          AfterIsNormal(now, Remaining(lease.addr));
          SetEvolves(db.timers, lease.timer.value, After(now, Remaining(lease.addr)));
        }
      }
    case OfBinding(b) =>
      if b in db.bindings {
        RemoveBindingEvolves(db, b);
      }
  }

  // ---------------------------------------------------------------------------
  // Expiry keeps the invariant
  // ---------------------------------------------------------------------------

  lemma RemoveLeaseInv(db: Db, l: nat)
    requires Inv(db) && l in db.leases
    ensures Inv(RemoveLease(db, l))
  {
    hide InvBut, RemoveLease;
    RemoveLeaseKeeps(db, l, {});
    LeaseKnown(db, l, {});
  }

  lemma RemoveBindingInv(db: Db, b: nat)
    requires Inv(db) && b in db.bindings
    ensures Inv(RemoveBinding(db, b))
  {
    hide InvBut, RemoveBinding, Holder;
    RemoveBindingKeeps(db, b, {});
  }

  lemma ExpireKeeps(db: Db, l: nat, due: Time)
    requires Inv(db) && l in db.leases && db.leases[l].timer.Some?
    ensures var leases1 := db.leases[l := db.leases[l].(state := Expired)];
            Inv(db.(leases := leases1, timers := SetTimer(db.timers, db.leases[l].timer.value, due)))
  {
    hide Listing, Indexed, Registered, Timed;
    var leases1 := db.leases[l := db.leases[l].(state := Expired)];
    StateOnly(db, l);
    SetTimed(leases1, db.bindings, db.timers, db.leases[l].timer.value, due);
  }

  lemma StateOnly(db: Db, l: nat)
    requires l in db.leases
    ensures var leases1 := db.leases[l := db.leases[l].(state := Expired)];
            && (Listing(db.leases, db.bindings) ==> Listing(leases1, db.bindings))
            && (Indexed(db.leases, db.leaseTable) ==> Indexed(leases1, db.leaseTable))
            && (Timed(db.leases, db.bindings, db.timers) ==> Timed(leases1, db.bindings, db.timers))
  {
    hide WellFormed, Distinct, On;
  }

  // An unmarked timer's callback finds a live record whose timer it is.
  lemma OwnerLives(db: Db, t: nat)
    requires Inv(db) && t in db.timers.recs && !db.timers.recs[t].marked
    ensures match db.timers.recs[t].owner
            case OfLease(l) => l in db.leases && db.leases[l].timer == Some(t)
            case OfBinding(b) => b in db.bindings && db.bindings[b].timer == Some(t)
  {
    hide Listing, Indexed, Registered, WellFormed;
  }

  lemma FireKeeps(db: Db, t: nat, now: Time)
    requires Inv(db) && t in db.timers.recs && !db.timers.recs[t].marked
    ensures Inv(Fire(db, db.timers.recs[t].owner, now).0)
  {
    hide Inv, RemoveLease, RemoveBinding, After, SetTimer;
    OwnerLives(db, t);
    match db.timers.recs[t].owner
    case OfLease(l) =>
      var due := After(now, Remaining(db.leases[l].addr));
      RemoveLeaseInv(db, l);
      ExpireKeeps(db, l, due);
      assert db.(leases := db.leases[l := db.leases[l].(state := Expired)]).(timers := SetTimer(db.timers, t, due))
          == db.(leases := db.leases[l := db.leases[l].(state := Expired)], timers := SetTimer(db.timers, t, due));
    case OfBinding(b) =>
      RemoveBindingInv(db, b);
  }

  // ---------------------------------------------------------------------------
  // Passes
  // ---------------------------------------------------------------------------

  // The server between passes; the timer list is kept apart, and the clock is read anew each time.
  datatype Server = Server(db: Db, ticks: nat)

  type Clock = t: nat -> Time | forall n :: Normal(t(n)) witness (_ => Time(0, 0))

  function Whole(s: Server, tl: TimerList<Owner>): Db {
    s.db.(timers := tl)
  }

  lemma WholeIs(db: Db, ticks: nat)
    ensures Whole(Server(db, ticks), db.timers) == db
  {
  }

  // What the callback of timer t makes of it all.
  function Expire(clock: Clock, db: Db, ticks: nat, t: nat): (Server, TimerList<Owner>, bool) {
    if t !in db.timers.recs then (Server(db, ticks), db.timers, false)
    else
      var fired := Fire(db, db.timers.recs[t].owner, clock(ticks));
      (Server(fired.0, ticks + 1), fired.0.timers, fired.1)
  }

  function OnExpiry(clock: Clock): Callback<Server, Owner> {
    (s: Server, tl: TimerList<Owner>, t: nat) => Expire(clock, Whole(s, tl), s.ticks, t)
  }

  datatype Request =
    | Ask(client: Client, infos: seq<Addr>)
    | Renew(client: Client, infos: seq<Addr>)
    | Release(client: Client, infos: seq<Addr>)

  // A request for addresses updates the client's binding if it has one.
  function Serve(db: Db, request: Request, now: Time): Db {
    match request
    case Ask(client, infos) =>
      if client in db.bindingTable then UpdateBinding(db, client, infos, true, now)
          else AddBinding(db, client, infos, now)
    case Renew(client, infos) => UpdateBinding(db, client, infos, true, now)
    case Release(client, infos) => UpdateBinding(db, client, infos, false, now)
  }

  function OnRequest(requests: nat -> Request, clock: Clock): Callback<Server, Owner> {
    (s: Server, tl: TimerList<Owner>, n: nat) =>
      var db := Serve(Whole(s, tl), requests(n), clock(s.ticks));
      (Server(db, s.ticks + 1), db.timers, true)
  }

  lemma CallbacksBehave(requests: nat -> Request, clock: Clock)
    ensures Behaves(OnExpiry(clock)) && Behaves(OnRequest(requests, clock))
  {
    hide Evolves, WellFormed, Fire, AddBinding, UpdateBinding;
    forall st: Server, tl: TimerList<Owner>, id: nat | WellFormed(tl)
      ensures Evolves(tl, OnExpiry(clock)(st, tl, id).1) && Evolves(tl, OnRequest(requests, clock)(st, tl, id).1)
    {
      EvolvesItself(tl);
      var db, now := Whole(st, tl), clock(st.ticks);
      if id in tl.recs {
        FireEvolves(db, tl.recs[id].owner, now);
      }
      var r := requests(id);
      AddBindingEvolves(db, r.client, r.infos, now);
      UpdateBindingEvolves(db, r.client, r.infos, true, now);
      UpdateBindingEvolves(db, r.client, r.infos, false, now);
    }
  }

  lemma ServeKeeps(db: Db, request: Request, now: Time)
    requires Inv(db)
    ensures Inv(Serve(db, request, now))
  {
    hide Inv, AddBinding, UpdateBinding, Standing, Holder;
    var client, infos := request.client, request.infos;
    if client in db.bindingTable {
      UpdateExactly(db, client, infos, true, now);
      UpdateExactly(db, client, infos, false, now);
    } else {
      AddExactly(db, client, infos, now);
      UpdateUnknown(db, client, infos, now);
    }
  }

  lemma UpdateUnknown(db: Db, client: Client, infos: seq<Addr>, now: Time)
    requires client !in db.bindingTable
    ensures UpdateBinding(db, client, infos, true, now) == db && UpdateBinding(db, client, infos, false, now) == db
  {
  }

  // Unlinking a marked timer and moving the sentinel are nothing to the records.
  lemma UnlinkInv(db: Db, t: nat)
    requires Inv(db) && t in db.timers.recs && db.timers.recs[t].marked
    ensures Inv(db.(timers := Unlink(db.timers, t)))
  {
    UnlinkKeeps(db.timers, t);
    hide Listing, Indexed, Registered, WellFormed, Without;
  }

  lemma SentinelInv(db: Db, sentinel: Time)
    requires Inv(db)
    ensures Inv(db.(timers := db.timers.(sentinel := sentinel)))
  {
    hide Listing, Indexed, Registered, Distinct;
  }

  lemma CoverInv(db: Db, tl: TimerList<Owner>, t: nat)
    requires t in tl.recs && Inv(db.(timers := tl))
    ensures Inv(db.(timers := Cover(tl, t)))
  {
    hide Inv;
    SentinelInv(db.(timers := tl), Cover(tl, t).sentinel);
  }

  lemma FiredStays(db: Db, t: nat, now: Time)
    requires WellFormed(db.timers) && Normal(now) && t in db.timers.recs
    ensures t in Fire(db, db.timers.recs[t].owner, now).0.timers.recs
  {
    hide WellFormed, Fire;
    FireEvolves(db, db.timers.recs[t].owner, now);
  }

  lemma VisitFires(clock: Clock, s: Server, tl: TimerList<Owner>, t: nat, now: Time)
    requires Behaves(OnExpiry(clock)) && WellFormed(tl) && t in tl.recs && !tl.recs[t].marked
             && Leq(tl.recs[t].due, now)
    ensures var (db, again) := Fire(Whole(s, tl), tl.recs[t].owner, clock(s.ticks));
            && t in db.timers.recs
            && Whole(Visit(OnExpiry(clock), s, tl, t, now).st, Visit(OnExpiry(clock), s, tl, t, now).tl)
            == db.(timers := if again then Cover(db.timers, t) else db.timers)
            && Visit(OnExpiry(clock), s, tl, t, now).st.ticks == s.ticks + 1
  {
    hide WellFormed, Behaves, Fire, Cover;
    FiredStays(Whole(s, tl), t, clock(s.ticks));
  }

  lemma VisitRests(clock: Clock, s: Server, tl: TimerList<Owner>, t: nat, now: Time)
    requires Behaves(OnExpiry(clock)) && WellFormed(tl) && t in tl.recs
             && (tl.recs[t].marked || !Leq(tl.recs[t].due, now))
    ensures Whole(Visit(OnExpiry(clock), s, tl, t, now).st, Visit(OnExpiry(clock), s, tl, t, now).tl)
         == Whole(s, if tl.recs[t].marked then Unlink(tl, t) else Cover(tl, t))
    ensures Visit(OnExpiry(clock), s, tl, t, now).st.ticks == s.ticks
  {
    hide WellFormed, Behaves, Fire, Unlink, Cover;
  }

  lemma VisitInv(clock: Clock, s: Server, tl: TimerList<Owner>, t: nat, now: Time)
    requires Behaves(OnExpiry(clock)) && WellFormed(tl) && t in tl.recs && Inv(Whole(s, tl))
    ensures var v := Visit(OnExpiry(clock), s, tl, t, now); Inv(Whole(v.st, v.tl))
  {
    hide Inv, WellFormed, Behaves, Fire, Unlink, Cover, Visit, OnExpiry;
    var db := Whole(s, tl);
    if tl.recs[t].marked || !Leq(tl.recs[t].due, now) {
      VisitRests(clock, s, tl, t, now);
      if tl.recs[t].marked { UnlinkInv(db, t); } else { CoverInv(db, tl, t); }
    } else {
      VisitFires(clock, s, tl, t, now);
      FireKeeps(db, t, clock(s.ticks));
      var db1 := Fire(db, tl.recs[t].owner, clock(s.ticks)).0;
      assert db1.(timers := db1.timers) == db1;
      CoverInv(db1, db1.timers, t);
    }
  }

  lemma {:induction false} PassInv(clock: Clock, s: Server, tl: TimerList<Owner>, rest: seq<nat>, now: Time)
    requires Behaves(OnExpiry(clock)) && Pending(tl, rest) && Inv(Whole(s, tl))
    ensures var p := Pass(OnExpiry(clock), s, tl, rest, now); Inv(Whole(p.st, p.tl))
    decreases |rest|
  {
    hide Inv, WellFormed, Behaves, Visit, OnExpiry;
    if rest != [] {
      VisitKeepsPending(OnExpiry(clock), s, tl, rest, now);
      VisitInv(clock, s, tl, rest[0], now);
      var v := Visit(OnExpiry(clock), s, tl, rest[0], now);
      PassInv(clock, v.st, v.tl, rest[1..], now);
    }
  }

  lemma InvWellFormed(db: Db)
    requires Inv(db)
    ensures WellFormed(db.timers)
  {
    hide Listing, Indexed, Registered;
  }

  // ---------------------------------------------------------------------------
  // Whole runs
  // ---------------------------------------------------------------------------

  lemma StepInv(requests: nat -> Request, clock: Clock, s: Server, tl: TimerList<Owner>, move: Move)
    requires Behaves(OnExpiry(clock)) && Behaves(OnRequest(requests, clock)) && WellFormed(tl) && Inv(Whole(s, tl))
    ensures var v := Step(OnRequest(requests, clock), OnExpiry(clock), s, tl, move);
            WellFormed(v.tl) && Inv(Whole(v.st, v.tl))
  {
    hide Inv, WellFormed, Behaves, Serve, Pass;
    match move
    case Handle(n) =>
      ServeKeeps(Whole(s, tl), requests(n), clock(s.ticks));
      var db := Serve(Whole(s, tl), requests(n), clock(s.ticks));
      assert db.(timers := db.timers) == db;
      InvWellFormed(db);
    case PassAt(now) =>
      SentinelInv(Whole(s, tl), TM_MAX);
      var start := tl.(sentinel := TM_MAX);
      InvWellFormed(Whole(s, start));
      OrderPending(start);
      PassInv(clock, s, start, tl.order, now);
      var p := Pass(OnExpiry(clock), s, start, tl.order, now);
      InvWellFormed(Whole(p.st, p.tl));
  }

  lemma OrderPending(tl: TimerList<Owner>)
    requires WellFormed(tl)
    ensures Pending(tl, tl.order)
  {
  }

  lemma {:induction false} RunInv(requests: nat -> Request, clock: Clock, s: Server, tl: TimerList<Owner>,
                                  moves: seq<Move>)
    requires Behaves(OnExpiry(clock)) && Behaves(OnRequest(requests, clock)) && WellFormed(tl) && Inv(Whole(s, tl))
    ensures var p := Run(OnRequest(requests, clock), OnExpiry(clock), s, tl, moves); Inv(Whole(p.st, p.tl))
    decreases |moves|
  {
    hide Inv, WellFormed, Behaves, Step, OnExpiry, OnRequest;
    if moves != [] {
      StepInv(requests, clock, s, tl, moves[0]);
      var v := Step(OnRequest(requests, clock), OnExpiry(clock), s, tl, moves[0]);
      RunInv(requests, clock, v.st, v.tl, moves[1..]);
    }
  }

  lemma StartInv()
    ensures Inv(Whole(Server(NewDb(), 0), NewList())) && WellFormed(NewList<Owner>())
  {
  }

  // After any run of requests, renewals, releases and passes from an empty server: the invariant
  // holds, and no callback was ever run on a record that had been freed.
  lemma ReachableServer(requests: nat -> Request, clock: Clock, moves: seq<Move>)
    ensures Behaves(OnExpiry(clock)) && Behaves(OnRequest(requests, clock)) && WellFormed(NewList<Owner>())
    ensures var p := Run(OnRequest(requests, clock), OnExpiry(clock), Server(NewDb(), 0), NewList(), moves);
            Inv(Whole(p.st, p.tl)) && !p.st.db.wild
  {
    hide Inv, WellFormed, Behaves, OnExpiry, OnRequest;
    CallbacksBehave(requests, clock);
    StartInv();
    RunInv(requests, clock, Server(NewDb(), 0), NewList(), moves);
    var p := Run(OnRequest(requests, clock), OnExpiry(clock), Server(NewDb(), 0), NewList(), moves);
    InvTame(Whole(p.st, p.tl));
  }

  lemma InvTame(db: Db)
    requires Inv(db)
    ensures !db.wild
  {
    hide Listing, Indexed, Registered, Timed;
  }

  // In such a run a timer that was marked never fires again and is unlinked at most once.
  lemma MarkedTimersRest(requests: nat -> Request, clock: Clock, s: Server, tl: TimerList<Owner>, moves: seq<Move>,
                         t: nat)
    requires WellFormed(tl) && Finished(tl, t)
    ensures Behaves(OnExpiry(clock)) && Behaves(OnRequest(requests, clock))
    ensures var p := Run(OnRequest(requests, clock), OnExpiry(clock), s, tl, moves);
            !FiredIn(p.log, t) && Unlinks(p.log, t) == if t in tl.recs && t !in p.tl.recs then 1 else 0
  {
    hide WellFormed, Behaves, OnExpiry, OnRequest, Finished;
    CallbacksBehave(requests, clock);
    MarkedNeverFires(OnRequest(requests, clock), OnExpiry(clock), s, tl, moves, t);
  }

  // ---------------------------------------------------------------------------
  // Infinite leases
  // ---------------------------------------------------------------------------

  // Renewing a lease for ever does not touch the timer it had.
  lemma InfiniteKeepsTimer(db: Db, l: nat, a: Addr, now: Time)
    requires l in db.leases && Good(a) && Infinite(a)
    ensures var db1 := UpdateLease(db, l, a, now);
            l in db1.leases && db1.timers == db.timers && db1.leases[l] == db.leases[l].(addr := a, state := Active)
  {
  }

  // ---------------------------------------------------------------------------
  // Prefixes apart from addresses
  // ---------------------------------------------------------------------------

  ghost predicate OneSort(db: Db, prefixes: Sorting) {
    forall l :: l in db.leases ==> InSort(prefixes, db.leases[l].addr)
  }

  predicate OfSort(prefixes: Sorting, infos: seq<Addr>) {
    forall i :: 0 <= i < |infos| ==> InSort(prefixes, infos[i])
  }

  lemma LeaseOneSort(db: Db, l: nat, a: Addr, now: Time, prefixes: Sorting)
    requires OneSort(db, prefixes) && l in db.leases
    ensures OneSort(RemoveLease(db, l), prefixes)
    ensures InSort(prefixes, a) ==> OneSort(UpdateLease(db, l, a, now), prefixes)
  {
    hide After, Without;
  }

  lemma AddOneSort(db: Db, b: nat, a: Addr, now: Time, prefixes: Sorting)
    requires OneSort(db, prefixes) && b in db.bindings && InSort(prefixes, a)
    ensures OneSort(AddLease(db, b, a, now), prefixes)
  {
    hide After, KeyOf, Good;
  }

  lemma {:induction false} SweepOneSort(db: Db, list: seq<nat>, infos: Option<seq<Addr>>, prefixes: Sorting)
    requires OneSort(db, prefixes)
    ensures OneSort(Sweep(db, list, infos), prefixes)
    decreases |list|
  {
    hide RemoveLease, Listed, OneSort;
    if list != [] {
      if list[0] in db.leases {
        LeaseOneSort(db, list[0], db.leases[list[0]].addr, TM_MAX, prefixes);
      }
      var taken := list[0] in db.leases && (infos.Some? ==> !Listed(infos.value, db.leases[list[0]].addr));
      SweepOneSort(if taken then RemoveLease(db, list[0]) else db, list[1..], infos, prefixes);
    }
  }

  lemma RemoveBindingOneSort(db: Db, b: nat, prefixes: Sorting)
    requires OneSort(db, prefixes) && b in db.bindings
    ensures OneSort(RemoveBinding(db, b), prefixes)
  {
    hide RemoveAll, Sweep;
    SweepIs(db, db.bindings[b].list, []);
    SweepOneSort(db, db.bindings[b].list, None, prefixes);
  }

  lemma SettleOneSort(db: Db, b: nat, now: Time, prefixes: Sorting)
    requires OneSort(db, prefixes) && b in db.bindings
    ensures OneSort(Settle(db, b, now), prefixes)
  {
    hide RemoveBinding, After, MaxValid;
    RemoveBindingOneSort(db, b, prefixes);
  }

  lemma {:induction false} AddAllOneSort(db: Db, b: nat, infos: seq<Addr>, now: Time, prefixes: Sorting)
    requires OneSort(db, prefixes) && b in db.bindings && OfSort(prefixes, infos)
    ensures OneSort(AddAll(db, b, infos, now), prefixes)
    decreases |infos|
  {
    hide AddLease, OneSort;
    if infos != [] {
      AddOneSort(db, b, infos[0], now, prefixes);
      var db1 := AddLease(db, b, infos[0], now);
      if b in db1.bindings {
        AddAllOneSort(db1, b, infos[1..], now, prefixes);
      }
    }
  }

  lemma {:induction false} UpdateAllOneSort(db: Db, b: nat, infos: seq<Addr>, now: Time, prefixes: Sorting)
    requires OneSort(db, prefixes) && b in db.bindings && OfSort(prefixes, infos)
    ensures OneSort(UpdateAll(db, b, infos, now), prefixes)
    decreases |infos|
  {
    hide AddLease, UpdateLease, FindLease, OneSort;
    if infos != [] {
      AddOneSort(db, b, infos[0], now, prefixes);
      var found := FindLease(db, b, infos[0]);
      if found.Some? && found.value in db.leases {
        LeaseOneSort(db, found.value, infos[0], now, prefixes);
      }
      var db1 := UpdateOne(db, b, infos[0], now);
      if b in db1.bindings {
        UpdateAllOneSort(db1, b, infos[1..], now, prefixes);
      }
    }
  }

  lemma {:induction false} ReleaseAllOneSort(db: Db, b: nat, infos: seq<Addr>, prefixes: Sorting)
    requires OneSort(db, prefixes) && b in db.bindings
    ensures OneSort(ReleaseAll(db, b, infos), prefixes)
    decreases |infos|
  {
    hide RemoveLease, FindLease, OneSort;
    if infos != [] {
      var found := FindLease(db, b, infos[0]);
      var gone := found.Some? && found.value in db.leases;
      if gone {
        LeaseOneSort(db, found.value, infos[0], TM_MAX, prefixes);
      }
      var db1 := if gone then RemoveLease(db, found.value) else db;
      if b in db1.bindings {
        ReleaseAllOneSort(db1, b, infos[1..], prefixes);
      }
    }
  }

  lemma UpdateBindingOneSort(db: Db, client: Client, infos: seq<Addr>, update: bool, now: Time, prefixes: Sorting)
    requires OneSort(db, prefixes) && OfSort(prefixes, infos)
    ensures OneSort(UpdateBinding(db, client, infos, update, now), prefixes)
  {
    hide UpdateAll, ReleaseAll, Prune, Sweep, Settle, OneSort;
    if client in db.bindingTable && db.bindingTable[client] in db.bindings {
      var b := db.bindingTable[client];
      UpdateAllOneSort(db, b, infos, now, prefixes);
      ReleaseAllOneSort(db, b, infos, prefixes);
      var db1 := if update then UpdateAll(db, b, infos, now) else ReleaseAll(db, b, infos);
      if b in db1.bindings {
        SweepIs(db1, db1.bindings[b].list, infos);
        SweepOneSort(db1, db1.bindings[b].list, Some(infos), prefixes);
        var db2 := if update then Prune(db1, db1.bindings[b].list, infos) else db1;
        if b in db2.bindings {
          SettleOneSort(db2, b, now, prefixes);
        }
      }
    }
  }

  lemma AddBindingOneSort(db: Db, client: Client, infos: seq<Addr>, now: Time, prefixes: Sorting)
    requires OneSort(db, prefixes) && OfSort(prefixes, infos)
    ensures OneSort(AddBinding(db, client, infos, now), prefixes)
  {
    hide AddAll, RemoveBinding, After, MaxValid;
    var b, db0 := db.next, Begun(db, client);
    AddAllOneSort(db0, b, infos, now, prefixes);
    var db1 := AddAll(db0, b, infos, now);
    if b in db1.bindings {
      RemoveBindingOneSort(db1, b, prefixes);
    }
  }

  lemma FireOneSort(db: Db, owner: Owner, now: Time, prefixes: Sorting)
    requires OneSort(db, prefixes)
    ensures OneSort(Fire(db, owner, now).0, prefixes)
  {
    hide RemoveLease, RemoveBinding, After, SetTimer;
    match owner
    case OfLease(l) => if l in db.leases { LeaseOneSort(db, l, db.leases[l].addr, now, prefixes); }
    case OfBinding(b) => if b in db.bindings { RemoveBindingOneSort(db, b, prefixes); }
  }

  lemma VisitOneSort(clock: Clock, s: Server, tl: TimerList<Owner>, t: nat, now: Time, prefixes: Sorting)
    requires Behaves(OnExpiry(clock)) && WellFormed(tl) && t in tl.recs && OneSort(Whole(s, tl), prefixes)
    ensures var v := Visit(OnExpiry(clock), s, tl, t, now); OneSort(Whole(v.st, v.tl), prefixes)
  {
    hide Behaves, WellFormed, OnExpiry, Visit, Fire, Unlink, Cover, Leq;
    if tl.recs[t].marked || !Leq(tl.recs[t].due, now) {
      VisitRests(clock, s, tl, t, now);
    } else {
      VisitFires(clock, s, tl, t, now);
      FireOneSort(Whole(s, tl), tl.recs[t].owner, clock(s.ticks), prefixes);
    }
  }

  lemma {:induction false} PassOneSort(clock: Clock, s: Server, tl: TimerList<Owner>, rest: seq<nat>, now: Time,
                                       prefixes: Sorting)
    requires Behaves(OnExpiry(clock)) && Pending(tl, rest) && OneSort(Whole(s, tl), prefixes)
    ensures var p := Pass(OnExpiry(clock), s, tl, rest, now); OneSort(Whole(p.st, p.tl), prefixes)
    decreases |rest|
  {
    hide Behaves, WellFormed, OnExpiry, Visit, OneSort, Whole;
    if rest != [] {
      VisitKeepsPending(OnExpiry(clock), s, tl, rest, now);
      VisitOneSort(clock, s, tl, rest[0], now, prefixes);
      var v := Visit(OnExpiry(clock), s, tl, rest[0], now);
      PassOneSort(clock, v.st, v.tl, rest[1..], now, prefixes);
    }
  }

  lemma PendingAnew(tl: TimerList<Owner>)
    requires WellFormed(tl)
    ensures Pending(tl.(sentinel := TM_MAX), tl.order)
  {
  }

  lemma StepOneSort(requests: nat -> Request, clock: Clock, s: Server, tl: TimerList<Owner>, move: Move,
                    prefixes: Sorting)
    requires Behaves(OnExpiry(clock)) && Behaves(OnRequest(requests, clock)) && WellFormed(tl)
             && OneSort(Whole(s, tl), prefixes)
    requires forall n :: OfSort(prefixes, requests(n).infos)
    ensures var v := Step(OnRequest(requests, clock), OnExpiry(clock), s, tl, move);
            OneSort(Whole(v.st, v.tl), prefixes)
  {
    hide Behaves, WellFormed, OnExpiry, Pass, UpdateBinding, AddBinding;
    match move
    case Handle(n) =>
      var r, db := requests(n), Whole(s, tl);
      UpdateBindingOneSort(db, r.client, r.infos, true, clock(s.ticks), prefixes);
      UpdateBindingOneSort(db, r.client, r.infos, false, clock(s.ticks), prefixes);
      AddBindingOneSort(db, r.client, r.infos, clock(s.ticks), prefixes);
    case PassAt(now) =>
      OrderPending(tl);
      PendingAnew(tl);
      PassOneSort(clock, s, tl.(sentinel := TM_MAX), tl.order, now, prefixes);
  }

  lemma {:induction false} RunOneSort(requests: nat -> Request, clock: Clock, s: Server, tl: TimerList<Owner>,
                                      moves: seq<Move>, prefixes: Sorting)
    requires Behaves(OnExpiry(clock)) && Behaves(OnRequest(requests, clock)) && WellFormed(tl)
             && OneSort(Whole(s, tl), prefixes)
    requires forall n :: OfSort(prefixes, requests(n).infos)
    ensures var p := Run(OnRequest(requests, clock), OnExpiry(clock), s, tl, moves);
            OneSort(Whole(p.st, p.tl), prefixes)
    decreases |moves|
  {
    hide Behaves, WellFormed, OnExpiry, OnRequest, Step, OneSort, Whole, OfSort;
    if moves != [] {
      StepLogs(OnRequest(requests, clock), OnExpiry(clock), s, tl, moves[0], 0);
      StepOneSort(requests, clock, s, tl, moves[0], prefixes);
      var v := Step(OnRequest(requests, clock), OnExpiry(clock), s, tl, moves[0]);
      RunOneSort(requests, clock, v.st, v.tl, moves[1..], prefixes);
    }
  }

  // As long as nothing is asked for both as a prefix and as an address, what the comparison of the
  // lease table says of any lease and any such address is what the database goes by. In
  // particular runs of requests for addresses only, temporary or not, and for prefixes only.
  lemma OneSortRuns(requests: nat -> Request, clock: Clock, moves: seq<Move>, prefixes: Sorting)
    requires forall n :: OfSort(prefixes, requests(n).infos)
    ensures Behaves(OnExpiry(clock)) && Behaves(OnRequest(requests, clock)) && WellFormed(NewList<Owner>())
    ensures var p := Run(OnRequest(requests, clock), OnExpiry(clock), Server(NewDb(), 0), NewList(), moves);
            var db := Whole(p.st, p.tl);
            forall l, key: Addr :: l in db.leases && InSort(prefixes, key) ==> (
              LeaseMatch(db.leases[l].addr, key) <==> KeyOf(key) in db.leaseTable && db.leaseTable[KeyOf(key)] == l)
  {
    hide Inv, Behaves, WellFormed, OnExpiry, OnRequest, Run, LeaseMatch, KeyOf, OfSort;
    CallbacksBehave(requests, clock);
    StartInv();
    RunOneSort(requests, clock, Server(NewDb(), 0), NewList(), moves, prefixes);
    RunInv(requests, clock, Server(NewDb(), 0), NewList(), moves);
    var p := Run(OnRequest(requests, clock), OnExpiry(clock), Server(NewDb(), 0), NewList(), moves);
    var db := Whole(p.st, p.tl);
    forall l, key: Addr | l in db.leases && InSort(prefixes, key)
      ensures LeaseMatch(db.leases[l].addr, key) <==> KeyOf(key) in db.leaseTable && db.leaseTable[KeyOf(key)] == l
    {
      SortIsCoherent(db.leases[l].addr, key);
      TableTells(db, l, KeyOf(key));
    }
  }

  lemma TableTells(db: Db, l: nat, k: Key)
    requires Inv(db) && l in db.leases
    ensures KeyOf(db.leases[l].addr) == k <==> k in db.leaseTable && db.leaseTable[k] == l
  {
    hide Listing, Registered, Timed, KeyOf;
  }
}
