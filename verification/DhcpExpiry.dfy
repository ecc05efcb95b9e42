/** What becomes of one lease over passes of the timers: exactly when it is still held. A lease
    can end by its own timer, twice, or by that of its binding; one renewed or granted for ever
    has no better claim than its timers give it. */
module DhcpExpiry {
  import opened Bytes
  import opened DhcpTimers
  import opened DhcpLeases
  import opened DhcpInvariant
  import opened DhcpBindings
  import opened DhcpServer

  // ---------------------------------------------------------------------------
  // What decides
  // ---------------------------------------------------------------------------

  // A lease's age, the deadline of its own timer if it has one, and that of its binding.
  datatype Prospect = Prospect(state: State, own: Option<Time>, end: Time)

  function Deadline(tl: TimerList<Owner>, t: nat): Time {
    if t in tl.recs then tl.recs[t].due else TM_MAX
  }

  function OwnDeadline(tl: TimerList<Owner>, timer: Option<nat>): Option<Time> {
    if timer.Some? then Some(Deadline(tl, timer.value)) else None
  }

  function BindingTimer(db: Db, b: nat): nat {
    if b in db.bindings && db.bindings[b].timer.Some? then db.bindings[b].timer.value else 0
  }

  function ProspectOf(db: Db, l: nat): Prospect
    requires l in db.leases
  {
    var lease := db.leases[l];
    Prospect(lease.state, OwnDeadline(db.timers, lease.timer), Deadline(db.timers, BindingTimer(db, lease.binding)))
  }

  // After a pass: gone, or with what prospect. again is the deadline its own timer gets when it
  // has fired for the first time.
  function PassProspect(p: Prospect, now: Time, again: Time): Option<Prospect> {
    if Leq(p.end, now) then None
    else if p.own.Some? && Leq(p.own.value, now) then
      if p.state == Expired then None else Some(Prospect(Expired, Some(again), p.end))
    else Some(p)
  }

  // ---------------------------------------------------------------------------
  // What leaves a lease alone
  // ---------------------------------------------------------------------------

  ghost predicate Spares(was: Db, db: Db, l: nat) {
    && l in was.leases && l in db.leases && db.leases[l] == was.leases[l]
    && ProspectOf(db, l) == ProspectOf(was, l)
    && BindingTimer(db, db.leases[l].binding) == BindingTimer(was, was.leases[l].binding)
  }

  lemma SparesOn(a: Db, b: Db, c: Db, l: nat)
    ensures Spares(a, b, l) && Spares(b, c, l) ==> Spares(a, c, l)
    ensures l in a.leases ==> Spares(a, a, l)
  {
    hide ProspectOf, BindingTimer;
  }

  // Its own and its binding's timer, told from all others by their owners.
  ghost predicate OwnTimers(db: Db, l: nat, own: Option<nat>, end: nat) {
    && l in db.leases && db.leases[l].binding in db.bindings
    && own == db.leases[l].timer && db.bindings[db.leases[l].binding].timer == Some(end)
    && (own.Some? ==> Points(db.timers, own.value, OfLease(l)))
    && Points(db.timers, end, OfBinding(db.leases[l].binding))
  }

  lemma OwnTimersOf(db: Db, l: nat)
    requires Inv(db) && l in db.leases
    ensures OwnTimers(db, l, db.leases[l].timer, BindingTimer(db, db.leases[l].binding))
  {
    hide Indexed, Registered, WellFormed, Distinct;
    OnMeans(db.bindings, db.leases[l].binding, l);
  }

  lemma RemoveLeaseSpares(db: Db, x: nat, l: nat)
    requires x in db.leases && l in db.leases && x != l
    ensures Spares(db, RemoveLease(db, x), l)
  {
  }

  lemma {:induction false} RemoveAllSpares(db: Db, list: seq<nat>, l: nat)
    requires l in db.leases && l !in list
    ensures Spares(db, RemoveAll(db, list), l)
    decreases |list|
  {
    hide RemoveLease, Spares;
    SparesOn(db, db, db, l);
    if list != [] {
      var db1 := if list[0] in db.leases then RemoveLease(db, list[0]) else db;
      if list[0] in db.leases {
        RemoveLeaseSpares(db, list[0], l);
      }
      SparesMeans(db, db1, l);
      RemoveAllSpares(db1, list[1..], l);
      SparesOn(db, db1, RemoveAll(db1, list[1..]), l);
    }
  }

  lemma SparesMeans(was: Db, db: Db, l: nat)
    requires Spares(was, db, l)
    ensures l in was.leases && l in db.leases && db.leases[l] == was.leases[l]
            && ProspectOf(db, l) == ProspectOf(was, l)
  {
  }

  lemma RemoveBindingSpares(db: Db, b: nat, l: nat)
    requires Inv(db) && b in db.bindings && l in db.leases && db.leases[l].binding != b
    ensures Spares(db, RemoveBinding(db, b), l)
  {
    hide Inv, RemoveAll, Spares;
    Unlisted(db, b, l);
    var db1 := RemoveAll(db, db.bindings[b].list);
    RemoveAllSpares(db, db.bindings[b].list, l);
    SparesMeans(db, db1, l);
    if b in db1.bindings {
      DropSpares(db1, b, l);
      SparesOn(db, db1, DropBinding(db1, b), l);
    }
  }

  lemma Unlisted(db: Db, b: nat, l: nat)
    requires Inv(db) && b in db.bindings && l in db.leases && db.leases[l].binding != b
    ensures l !in db.bindings[b].list
  {
    hide Indexed, Registered, Timed, Distinct;
    OnMeans(db.bindings, b, l);
  }

  lemma DropSpares(db: Db, b: nat, l: nat)
    requires b in db.bindings && l in db.leases && db.leases[l].binding != b
    ensures Spares(db, DropBinding(db, b), l)
  {
  }

  // ---------------------------------------------------------------------------
  // What ends a lease
  // ---------------------------------------------------------------------------

  ghost predicate Shrinks(was: Db, db: Db) {
    forall x :: x in db.leases ==> x in was.leases && db.leases[x].binding == was.leases[x].binding
  }

  lemma RemoveLeaseShrinks(db: Db, x: nat)
    requires x in db.leases
    ensures Shrinks(db, RemoveLease(db, x))
  {
  }

  lemma {:induction false} RemoveAllShrinks(db: Db, list: seq<nat>)
    ensures Shrinks(db, RemoveAll(db, list))
    decreases |list|
  {
    hide RemoveLease;
    if list != [] {
      if list[0] in db.leases {
        RemoveLeaseShrinks(db, list[0]);
      }
      RemoveAllShrinks(if list[0] in db.leases then RemoveLease(db, list[0]) else db, list[1..]);
    }
  }

  lemma RemoveBindingShrinks(db: Db, b: nat)
    requires b in db.bindings
    ensures Shrinks(db, RemoveBinding(db, b))
  {
    hide RemoveAll;
    RemoveAllShrinks(db, db.bindings[b].list);
  }

  lemma RemoveBindingTakes(db: Db, b: nat, l: nat)
    requires Inv(db) && b in db.bindings && l in db.leases && db.leases[l].binding == b
    ensures l !in RemoveBinding(db, b).leases
  {
    hide RemoveAll, InvBut, OthersKept, Holder;
    RemoveAllOf(db, b, {});
    var db1 := RemoveAll(db, db.bindings[b].list);
    RemoveAllShrinks(db, db.bindings[b].list);
    if l in db1.leases {
      Kept(db1, l);
    }
  }

  lemma Kept(db: Db, l: nat)
    requires InvBut(db, {}) && l in db.leases
    ensures db.leases[l].binding in db.bindings && l in db.bindings[db.leases[l].binding].list
  {
    hide Indexed, Registered, Timed, Distinct;
    OnMeans(db.bindings, db.leases[l].binding, l);
  }

  lemma FireShrinks(db: Db, owner: Owner, now: Time)
    ensures Shrinks(db, Fire(db, owner, now).0)
  {
    hide RemoveLease, RemoveBinding, After, SetTimer;
    match owner
    case OfLease(l) => if l in db.leases { RemoveLeaseShrinks(db, l); }
    case OfBinding(b) => if b in db.bindings { RemoveBindingShrinks(db, b); }
  }

  lemma VisitShrinks(clock: Clock, s: Server, tl: TimerList<Owner>, t: nat, now: Time)
    requires Behaves(OnExpiry(clock)) && WellFormed(tl) && t in tl.recs
    ensures var v := Visit(OnExpiry(clock), s, tl, t, now); Shrinks(Whole(s, tl), Whole(v.st, v.tl))
  {
    hide Behaves, WellFormed, OnExpiry, Visit, Fire, Unlink, Cover, Leq;
    if tl.recs[t].marked || !Leq(tl.recs[t].due, now) {
      VisitRests(clock, s, tl, t, now);
    } else {
      VisitFires(clock, s, tl, t, now);
      FireShrinks(Whole(s, tl), tl.recs[t].owner, clock(s.ticks));
    }
  }

  lemma {:induction false} GoneStays(clock: Clock, s: Server, tl: TimerList<Owner>, rest: seq<nat>, now: Time)
    requires Behaves(OnExpiry(clock)) && Pending(tl, rest)
    ensures var p := Pass(OnExpiry(clock), s, tl, rest, now); Shrinks(Whole(s, tl), Whole(p.st, p.tl))
    decreases |rest|
  {
    hide Behaves, WellFormed, OnExpiry, Visit, Whole;
    if rest != [] {
      VisitKeepsPending(OnExpiry(clock), s, tl, rest, now);
      VisitShrinks(clock, s, tl, rest[0], now);
      var v := Visit(OnExpiry(clock), s, tl, rest[0], now);
      GoneStays(clock, v.st, v.tl, rest[1..], now);
    }
  }

  // ---------------------------------------------------------------------------
  // One timer
  // ---------------------------------------------------------------------------

  // The lease has grown old, and its timer goes on to the end of its valid lifetime.
  ghost predicate Aged(was: Db, db: Db, l: nat, again: Time) {
    && l in was.leases && l in db.leases && db.leases[l] == was.leases[l].(state := Expired)
    && ProspectOf(db, l) == ProspectOf(was, l).(state := Expired, own := Some(again))
    && BindingTimer(db, db.leases[l].binding) == BindingTimer(was, was.leases[l].binding)
  }

  // A timer that does not fire, or is neither the lease's own nor its binding's.
  lemma OtherFires(db: Db, t: nat, now: Time, l: nat, own: Option<nat>, end: nat)
    requires Inv(db) && t in db.timers.recs && !db.timers.recs[t].marked
    requires OwnTimers(db, l, own, end) && own != Some(t) && end != t
    ensures Spares(db, Fire(db, db.timers.recs[t].owner, now).0, l)
  {
    hide Inv, RemoveLease, RemoveBinding, After, Spares;
    OwnerLives(db, t);
    match db.timers.recs[t].owner
    case OfLease(x) =>
      assert x != l;
      RemoveLeaseSpares(db, x, l);
      AgeSpares(db, x, t, After(now, Remaining(db.leases[x].addr)), l, own, end);
    case OfBinding(b) =>
      assert b != db.leases[l].binding;
      RemoveBindingSpares(db, b, l);
  }

  lemma AgeSpares(db: Db, x: nat, t: nat, due: Time, l: nat, own: Option<nat>, end: nat)
    requires x in db.leases && x != l && OwnTimers(db, l, own, end) && own != Some(t) && end != t
    ensures Spares(db,
                   db.(leases := db.leases[x := db.leases[x].(state := Expired)]).(timers := SetTimer(db.timers, t,
                           due)), l)
  {
  }

  lemma OwnFires(db: Db, now: Time, l: nat, t: nat, end: nat)
    requires Inv(db) && OwnTimers(db, l, Some(t), end)
    ensures var db1 := Fire(db, OfLease(l), now).0;
            if db.leases[l].state == Expired then l !in db1.leases
                else Aged(db, db1, l, After(now, Remaining(db.leases[l].addr)))
  {
    hide Inv, After;
    if db.leases[l].state == Expired {
      InvImplies(db);
      hide InvBut;
      LeaseKnown(db, l, {});
    }
  }

  // What a pass, or a part of one, means for the lease: which of its two timers fire in it, and
  // the deadline its own is given when it fires for the first time.
  ghost predicate Decided(was: Db, db: Db, l: nat, ownFires: bool, endFires: bool, again: Time) {
    l in was.leases &&
    if endFires || (ownFires && was.leases[l].state == Expired) then l !in db.leases
    else if ownFires then Aged(was, db, l, again)
    else Spares(was, db, l)
  }

  lemma AgedOn(was: Db, db: Db, db1: Db, l: nat, again: Time)
    requires Aged(was, db, l, again) && Spares(db, db1, l)
    ensures Aged(was, db1, l, again)
  {
  }

  lemma CoverSpares(db: Db, t: nat, l: nat)
    requires l in db.leases && t in db.timers.recs
    ensures Spares(db, db.(timers := Cover(db.timers, t)), l)
  {
  }

  lemma UnlinkSpares(db: Db, t: nat, l: nat, own: Option<nat>, end: nat)
    requires OwnTimers(db, l, own, end) && own != Some(t) && end != t
    ensures Spares(db, db.(timers := Unlink(db.timers, t)), l)
  {
    hide Without;
  }

  lemma VisitDecides(clock: Clock, s: Server, tl: TimerList<Owner>, t: nat, now: Time, l: nat, own: Option<nat>,
                     end: nat)
    requires Behaves(OnExpiry(clock)) && WellFormed(tl) && t in tl.recs
    requires Inv(Whole(s, tl)) && OwnTimers(Whole(s, tl), l, own, end)
    ensures var v, due := Visit(OnExpiry(clock), s, tl, t, now), Leq(tl.recs[t].due, now);
            Decided(Whole(s, tl), Whole(v.st, v.tl), l, own == Some(t) && due, end == t && due,
                    After(clock(s.ticks), Remaining(Whole(s, tl).leases[l].addr)))
  {
    hide Behaves, WellFormed, OnExpiry, Visit, Fire, Unlink, Cover, Leq, Inv, After, Spares, Aged;
    var db := Whole(s, tl);
    if tl.recs[t].marked || !Leq(tl.recs[t].due, now) {
      VisitRests(clock, s, tl, t, now);
      if tl.recs[t].marked {
        UnlinkSpares(db, t, l, own, end);
      } else {
        CoverSpares(db, t, l);
      }
    } else {
      VisitFires(clock, s, tl, t, now);
      FireDecides(db, t, clock(s.ticks), l, own, end);
      var db1 := Fire(db, tl.recs[t].owner, clock(s.ticks)).0;
      assert db1.(timers := db1.timers) == db1;
      DecidedCovered(db, db1, t, l, own == Some(t), end == t, After(clock(s.ticks), Remaining(db.leases[l].addr)));
    }
  }

  lemma FireDecides(db: Db, t: nat, now: Time, l: nat, own: Option<nat>, end: nat)
    requires Inv(db) && OwnTimers(db, l, own, end) && t in db.timers.recs && !db.timers.recs[t].marked
    ensures Decided(db, Fire(db, db.timers.recs[t].owner, now).0, l, own == Some(t), end == t,
                    After(now, Remaining(db.leases[l].addr)))
  {
    hide Inv, After, Spares, Aged, RemoveBinding, LeaseTimeout;
    if own == Some(t) {
      OwnFires(db, now, l, t, end);
    } else if end == t {
      RemoveBindingTakes(db, db.leases[l].binding, l);
    } else {
      OtherFires(db, t, now, l, own, end);
    }
  }

  lemma DecidedCovered(was: Db, db: Db, t: nat, l: nat, ownFires: bool, endFires: bool, again: Time)
    requires Decided(was, db, l, ownFires, endFires, again) && t in db.timers.recs
    ensures Decided(was, db.(timers := Cover(db.timers, t)), l, ownFires, endFires, again)
  {
    hide Cover, ProspectOf;
    if l in db.leases {
      CoverSpares(db, t, l);
      var db1 := db.(timers := Cover(db.timers, t));
      SparesOn(was, db, db1, l);
      if Aged(was, db, l, again) {
        AgedOn(was, db, db1, l, again);
      }
    }
  }

  // ---------------------------------------------------------------------------
  // One pass
  // ---------------------------------------------------------------------------

  lemma DecidedOn(a: Db, b: Db, c: Db, l: nat, own1: bool, end1: bool, again1: Time, own2: bool, end2: bool,
                  again2: Time)
    requires Decided(a, b, l, own1, end1, again1) && Shrinks(b, c)
    requires l in b.leases ==> Decided(b, c, l, own2, end2, again2)
    requires !own1 || !own2
    ensures Decided(a, c, l, own1 || own2, end1 || end2, if own1 then again1 else again2)
  {
    hide Shrinks, ProspectOf;
    if l !in b.leases {
      GoneIsGone(b, c, l);
    }
  }

  lemma GoneIsGone(b: Db, c: Db, l: nat)
    requires Shrinks(b, c) && l !in b.leases
    ensures l !in c.leases
  {
  }

  // The timers that matter to the lease, and when they are due, after a visit that left it there.
  lemma StillOwn(was: Db, db: Db, l: nat, ownFires: bool, endFires: bool, again: Time)
    requires Decided(was, db, l, ownFires, endFires, again) && l in db.leases
    ensures !endFires && db.leases[l].timer == was.leases[l].timer && db.leases[l].addr == was.leases[l].addr
    ensures BindingTimer(db, db.leases[l].binding) == BindingTimer(was, was.leases[l].binding)
    ensures ProspectOf(db, l).end == ProspectOf(was, l).end
    ensures !ownFires ==> ProspectOf(db, l).own == ProspectOf(was, l).own
  {
  }

  predicate OwnIn(db: Db, l: nat, rest: seq<nat>, now: Time)
    requires l in db.leases
  {
    var lease := db.leases[l];
    lease.timer.Some? && lease.timer.value in rest && Leq(Deadline(db.timers, lease.timer.value), now)
  }

  predicate EndIn(db: Db, l: nat, rest: seq<nat>, now: Time)
    requires l in db.leases
  {
    var end := BindingTimer(db, db.leases[l].binding);
    end in rest && Leq(Deadline(db.timers, end), now)
  }

  // Whether the first of rest is the lease's own timer, or its binding's, and due.
  predicate OwnFirst(db: Db, l: nat, t: nat, now: Time)
    requires l in db.leases
  {
    db.leases[l].timer == Some(t) && Leq(Deadline(db.timers, t), now)
  }

  predicate EndFirst(db: Db, l: nat, t: nat, now: Time)
    requires l in db.leases
  {
    BindingTimer(db, db.leases[l].binding) == t && Leq(Deadline(db.timers, t), now)
  }

  lemma InSplits(db: Db, l: nat, rest: seq<nat>, now: Time)
    requires l in db.leases && rest != [] && Distinct(rest)
    ensures OwnIn(db, l, rest, now) <==> OwnFirst(db, l, rest[0], now) || OwnIn(db, l, rest[1..], now)
    ensures EndIn(db, l, rest, now) <==> EndFirst(db, l, rest[0], now) || EndIn(db, l, rest[1..], now)
    ensures OwnFirst(db, l, rest[0], now) ==> !OwnIn(db, l, rest[1..], now)
  {
    hide Leq, Deadline, BindingTimer;
    RestIsOrdered(rest, BindingTimer(db, db.leases[l].binding));
    if db.leases[l].timer.Some? {
      RestIsOrdered(rest, db.leases[l].timer.value);
    }
  }

  // A timer of the lease that has not fired yet is in the rest as it was.
  lemma InStays(a: Db, b: Db, l: nat, rest: seq<nat>, now: Time, own1: bool, end1: bool, again: Time)
    requires Decided(a, b, l, own1, end1, again) && l in b.leases
    ensures EndIn(b, l, rest, now) <==> EndIn(a, l, rest, now)
    ensures !own1 ==> (OwnIn(b, l, rest, now) <==> OwnIn(a, l, rest, now))
  {
    hide Leq, Deadline, BindingTimer;
    StillOwn(a, b, l, own1, end1, again);
  }

  lemma StepDecided(a: Db, b: Db, c: Db, l: nat, rest: seq<nat>, now: Time, again1: Time, again2: Time)
    requires rest != [] && Distinct(rest) && l in a.leases
    requires Decided(a, b, l, OwnFirst(a, l, rest[0], now), EndFirst(a, l, rest[0], now), again1) && Shrinks(b, c)
    requires l in b.leases ==> Decided(b, c, l, OwnIn(b, l, rest[1..], now), EndIn(b, l, rest[1..], now), again2)
    ensures Decided(a, c, l, OwnIn(a, l, rest, now), EndIn(a, l, rest, now),
                    if OwnFirst(a, l, rest[0], now) then again1 else again2)
  {
    hide Leq, Deadline, BindingTimer, ProspectOf, Shrinks, OwnIn, EndIn, Aged, Spares, Distinct;
    InSplits(a, l, rest, now);
    var own1, end1 := OwnFirst(a, l, rest[0], now), EndFirst(a, l, rest[0], now);
    if l in b.leases {
      InStays(a, b, l, rest[1..], now, own1, end1, again1);
      StillOwn(a, b, l, own1, end1, again1);
      if own1 {
        NotAgain(b, l, rest, now);
      }
      DecidedOn(a, b, c, l, own1, end1, again1, OwnIn(b, l, rest[1..], now), EndIn(b, l, rest[1..], now), again2);
    } else {
      GoneIsGone(b, c, l);
      GoneMeans(a, b, l, own1, end1, again1);
    }
  }

  lemma NotAgain(db: Db, l: nat, rest: seq<nat>, now: Time)
    requires l in db.leases && rest != [] && Distinct(rest) && db.leases[l].timer == Some(rest[0])
    ensures !OwnIn(db, l, rest[1..], now)
  {
    RestIsOrdered(rest, rest[0]);
  }

  lemma GoneMeans(a: Db, b: Db, l: nat, own1: bool, end1: bool, again: Time)
    requires Decided(a, b, l, own1, end1, again) && l !in b.leases
    ensures end1 || (own1 && a.leases[l].state == Expired)
  {
  }

  // One pass over the timers of rest. n is the reading of the clock when the lease's own timer
  // fires.
  lemma {:induction false} PassDecides(clock: Clock, s: Server, tl: TimerList<Owner>, rest: seq<nat>, now: Time,
                                       l: nat) returns (n: nat)
    requires Behaves(OnExpiry(clock)) && Pending(tl, rest) && Inv(Whole(s, tl)) && l in Whole(s, tl).leases
    ensures s.ticks <= n <= Pass(OnExpiry(clock), s, tl, rest, now).st.ticks
    ensures var p, db := Pass(OnExpiry(clock), s, tl, rest, now), Whole(s, tl);
            Decided(db, Whole(p.st, p.tl), l, OwnIn(db, l, rest, now), EndIn(db, l, rest, now),
                    After(clock(n), Remaining(db.leases[l].addr)))
    decreases |rest|
  {
    hide Behaves, WellFormed, OnExpiry, Visit, Inv, After, Decided, Leq, Shrinks, OwnIn, EndIn, Distinct, OwnTimers,
         Whole, BindingTimer, Deadline, OwnFirst, EndFirst;
    n := s.ticks;
    var db := Whole(s, tl);
    if rest == [] {
      NothingDecided(db, l, now, After(clock(n), Remaining(db.leases[l].addr)));
    } else {
      VisitKeepsPending(OnExpiry(clock), s, tl, rest, now);
      VisitInv(clock, s, tl, rest[0], now);
      VisitFirst(clock, s, tl, rest[0], now, l);
      var v := Visit(OnExpiry(clock), s, tl, rest[0], now);
      var b := Whole(v.st, v.tl);
      GoneStays(clock, v.st, v.tl, rest[1..], now);
      TicksGoOn(clock, v.st, v.tl, rest[1..], now);
      var n2 := n;
      if l in b.leases {
        n2 := PassDecides(clock, v.st, v.tl, rest[1..], now, l);
        VisitFirstKeeps(clock, s, tl, rest[0], now, l);
      }
      var p := Pass(OnExpiry(clock), v.st, v.tl, rest[1..], now);
      StepDecided(db, b, Whole(p.st, p.tl), l, rest, now, After(clock(n), Remaining(db.leases[l].addr)),
                  After(clock(n2), Remaining(db.leases[l].addr)));
      if !OwnFirst(db, l, rest[0], now) {
        n := n2;
      }
    }
  }

  lemma VisitFirst(clock: Clock, s: Server, tl: TimerList<Owner>, t: nat, now: Time, l: nat)
    requires Behaves(OnExpiry(clock)) && WellFormed(tl) && t in tl.recs && Inv(Whole(s, tl)) && l in Whole(s, tl).leases
    ensures var v, db := Visit(OnExpiry(clock), s, tl, t, now), Whole(s, tl);
            && Decided(db, Whole(v.st, v.tl), l, OwnFirst(db, l, t, now), EndFirst(db, l, t, now),
                       After(clock(s.ticks), Remaining(db.leases[l].addr)))
            && s.ticks <= v.st.ticks
  {
    hide Behaves, WellFormed, OnExpiry, Visit, Inv, After, Decided, OwnTimers, Fire, Unlink, Cover, Leq;
    var db := Whole(s, tl);
    OwnTimersOf(db, l);
    VisitDecides(clock, s, tl, t, now, l, db.leases[l].timer, BindingTimer(db, db.leases[l].binding));
    if tl.recs[t].marked || !Leq(tl.recs[t].due, now) {
      VisitRests(clock, s, tl, t, now);
    } else {
      VisitFires(clock, s, tl, t, now);
    }
  }

  lemma VisitFirstKeeps(clock: Clock, s: Server, tl: TimerList<Owner>, t: nat, now: Time, l: nat)
    requires Behaves(OnExpiry(clock)) && WellFormed(tl) && t in tl.recs && Inv(Whole(s, tl)) && l in Whole(s, tl).leases
    ensures var v := Visit(OnExpiry(clock), s, tl, t, now);
            l in Whole(v.st, v.tl).leases ==> Whole(v.st, v.tl).leases[l].addr == Whole(s, tl).leases[l].addr
  {
    hide Behaves, WellFormed, OnExpiry, Visit, Inv, After, Decided, Whole, OwnFirst, EndFirst;
    VisitFirst(clock, s, tl, t, now, l);
    var v, db := Visit(OnExpiry(clock), s, tl, t, now), Whole(s, tl);
    if l in Whole(v.st, v.tl).leases {
      StillOwn(db, Whole(v.st, v.tl), l, OwnFirst(db, l, t, now), EndFirst(db, l, t, now),
               After(clock(s.ticks), Remaining(db.leases[l].addr)));
    }
  }

  lemma {:induction false} TicksGoOn(clock: Clock, s: Server, tl: TimerList<Owner>, rest: seq<nat>, now: Time)
    requires Behaves(OnExpiry(clock)) && Pending(tl, rest)
    ensures s.ticks <= Pass(OnExpiry(clock), s, tl, rest, now).st.ticks
    decreases |rest|
  {
    hide Behaves, WellFormed, OnExpiry, Visit, Leq, Fire, Unlink, Cover, Whole;
    if rest != [] {
      VisitKeepsPending(OnExpiry(clock), s, tl, rest, now);
      if tl.recs[rest[0]].marked || !Leq(tl.recs[rest[0]].due, now) {
        VisitRests(clock, s, tl, rest[0], now);
      } else {
        VisitFires(clock, s, tl, rest[0], now);
      }
      var v := Visit(OnExpiry(clock), s, tl, rest[0], now);
      TicksGoOn(clock, v.st, v.tl, rest[1..], now);
    }
  }

  lemma NothingDecided(db: Db, l: nat, now: Time, again: Time)
    requires l in db.leases
    ensures Decided(db, db, l, OwnIn(db, l, [], now), EndIn(db, l, [], now), again)
  {
  }

  // The whole list: the lease's prospect before the pass decides it.
  lemma CheckDecides(clock: Clock, s: Server, tl: TimerList<Owner>, now: Time, l: nat) returns (n: nat)
    requires Behaves(OnExpiry(clock)) && WellFormed(tl) && Inv(Whole(s, tl)) && l in Whole(s, tl).leases
    ensures var p, db := Check(OnExpiry(clock), s, tl, now), Whole(s, tl);
            var db1, q := Whole(p.st, p.tl),
                PassProspect(ProspectOf(db, l), now, After(clock(n), Remaining(db.leases[l].addr)));
            && s.ticks <= n <= p.st.ticks && WellFormed(p.tl) && Inv(db1)
            && (l in db1.leases <==> q.Some?)
            && (q.Some? ==> ProspectOf(db1, l) == q.value && db1.leases[l].addr == db.leases[l].addr)
  {
    hide Behaves, WellFormed, OnExpiry, Pass, Inv, After, Decided, Whole, OwnIn, EndIn, ProspectOf;
    var db, start := Whole(s, tl), tl.(sentinel := TM_MAX);
    StartsAnew(s, tl, l);
    n := PassDecides(clock, s, start, tl.order, now, l);
    PassInv(clock, s, start, tl.order, now);
    PassWellFormed(OnExpiry(clock), s, start, tl.order, now);
    var p := Pass(OnExpiry(clock), s, start, tl.order, now);
    AllIn(Whole(s, start), l, tl.order, now);
    DecidedProspect(Whole(s, start), Whole(p.st, p.tl), l, tl.order, now,
                    After(clock(n), Remaining(db.leases[l].addr)));
  }

  lemma StartsAnew(s: Server, tl: TimerList<Owner>, l: nat)
    requires WellFormed(tl) && Inv(Whole(s, tl)) && l in Whole(s, tl).leases
    ensures var start := tl.(sentinel := TM_MAX);
            && Pending(start, tl.order) && Inv(Whole(s, start)) && Whole(s, start).timers.order == tl.order
            && Whole(s, start).leases == Whole(s, tl).leases
               && ProspectOf(Whole(s, start), l) == ProspectOf(Whole(s, tl), l)
  {
    hide Inv;
    SentinelInv(Whole(s, tl), TM_MAX);
  }

  lemma AllIn(db: Db, l: nat, order: seq<nat>, now: Time)
    requires Inv(db) && l in db.leases && order == db.timers.order
    ensures OwnIn(db, l, order, now) <==> ProspectOf(db, l).own.Some? && Leq(ProspectOf(db, l).own.value, now)
    ensures EndIn(db, l, order, now) <==> Leq(ProspectOf(db, l).end, now)
  {
    OwnTimersOf(db, l);
    InvWellFormed(db);
    hide Inv, Distinct, Leq;
  }

  lemma DecidedProspect(db: Db, db1: Db, l: nat, order: seq<nat>, now: Time, again: Time)
    requires l in db.leases && Decided(db, db1, l, OwnIn(db, l, order, now), EndIn(db, l, order, now), again)
    requires OwnIn(db, l, order, now) <==> ProspectOf(db, l).own.Some? && Leq(ProspectOf(db, l).own.value, now)
    requires EndIn(db, l, order, now) <==> Leq(ProspectOf(db, l).end, now)
    ensures var q := PassProspect(ProspectOf(db, l), now, again);
            && (l in db1.leases <==> q.Some?)
            && (q.Some? ==> ProspectOf(db1, l) == q.value && db1.leases[l].addr == db.leases[l].addr)
  {
    hide OwnIn, EndIn, Leq, Deadline, BindingTimer;
  }

  // ---------------------------------------------------------------------------
  // Passes in a row
  // ---------------------------------------------------------------------------

  function Passes(nows: seq<Time>): seq<Move> {
    if nows == [] then [] else [PassAt(nows[0])] + Passes(nows[1..])
  }

  // Its own timer fires once at most before it is the end.
  function Lasts(p: Prospect, nows: seq<Time>, again: Time): bool
    decreases |nows|
  {
    if nows == [] then true
    else
      var q := PassProspect(p, nows[0], again);
      q.Some? && Lasts(q.value, nows[1..], again)
  }

  ghost predicate Reached(due: Time, nows: seq<Time>) {
    exists i :: 0 <= i < |nows| && Leq(due, nows[i])
  }

  ghost predicate ReachedTwice(due: Time, again: Time, nows: seq<Time>) {
    exists i :: 0 <= i < |nows| && Leq(due, nows[i]) && Reached(again, nows[i + 1..])
  }

  // A lease is still held after passes at these times exactly if none of them reached the
  // deadline of its binding, and none its own once it is old, or if it is not, none the deadline
  // it got after one reached the first.
  ghost predicate Survives(p: Prospect, nows: seq<Time>, again: Time) {
    && !Reached(p.end, nows)
    && (p.own.Some? ==>
          if p.state == Expired then !Reached(p.own.value, nows) else !ReachedTwice(p.own.value, again, nows))
  }

  lemma ReachedNext(due: Time, nows: seq<Time>)
    requires nows != []
    ensures Reached(due, nows) <==> Leq(due, nows[0]) || Reached(due, nows[1..])
  {
    hide Leq;
    if Reached(due, nows[1..]) {
      var i :| 0 <= i < |nows[1..]| && Leq(due, nows[1..][i]);
      assert Leq(due, nows[i + 1]);
    }
    if Reached(due, nows) {
      var i :| 0 <= i < |nows| && Leq(due, nows[i]);
      assert i == 0 || Leq(due, nows[1..][i - 1]);
    }
  }

  lemma TwiceNext(due: Time, again: Time, nows: seq<Time>)
    requires nows != []
    ensures ReachedTwice(due, again, nows) <==>
              (Leq(due, nows[0]) && Reached(again, nows[1..])) || ReachedTwice(due, again, nows[1..])
    ensures ReachedTwice(due, again, nows[1..]) ==> Reached(again, nows[1..])
  {
    hide Leq, Reached;
    if ReachedTwice(due, again, nows[1..]) {
      var i :| 0 <= i < |nows[1..]| && Leq(due, nows[1..][i]) && Reached(again, nows[1..][i + 1..]);
      assert nows[1..][i + 1..] == nows[i + 1 + 1..] && nows[1..][i] == nows[i + 1];
      ReachedLater(again, nows[1..], i + 1);
    }
    if ReachedTwice(due, again, nows) {
      var i :| 0 <= i < |nows| && Leq(due, nows[i]) && Reached(again, nows[i + 1..]);
      if i > 0 {
        assert nows[1..][i - 1 + 1..] == nows[i + 1..] && nows[1..][i - 1] == nows[i];
      }
    }
  }

  lemma ReachedLater(due: Time, nows: seq<Time>, i: nat)
    requires i <= |nows| && Reached(due, nows[i..])
    ensures Reached(due, nows)
  {
    hide Leq;
    var j :| 0 <= j < |nows[i..]| && Leq(due, nows[i..][j]);
    assert Leq(due, nows[i + j]);
  }

  lemma {:induction false} LastsExactly(p: Prospect, nows: seq<Time>, again: Time)
    ensures Lasts(p, nows, again) <==> Survives(p, nows, again)
    decreases |nows|
  {
    hide Reached, ReachedTwice, Leq;
    if nows == [] {
      NothingReached(p, again);
    } else {
      ReachedNext(p.end, nows);
      var q := PassProspect(p, nows[0], again);
      if p.own.Some? {
        ReachedNext(p.own.value, nows);
        TwiceNext(p.own.value, again, nows);
      }
      if q.Some? {
        LastsExactly(q.value, nows[1..], again);
      }
    }
  }

  lemma NothingReached(p: Prospect, again: Time)
    ensures Survives(p, [], again)
  {
  }

  // The pass in which its own timer fires for the first time.
  predicate FiresAt(p: Prospect, nows: seq<Time>, i: nat) {
    && i < |nows| && p.state == Active && p.own.Some? && Leq(p.own.value, nows[i])
    && (forall j :: 0 <= j < i ==> !Leq(p.own.value, nows[j]))
    && (forall j :: 0 <= j <= i ==> !Leq(p.end, nows[j]))
  }

  lemma {:induction false} OldIsOld(p: Prospect, nows: seq<Time>, x: Time, y: Time)
    requires p.state == Expired
    ensures Lasts(p, nows, x) == Lasts(p, nows, y)
    decreases |nows|
  {
    hide Leq;
    if nows != [] {
      var q := PassProspect(p, nows[0], x);
      if q.Some? {
        OldIsOld(q.value, nows[1..], x, y);
      }
    }
  }

  lemma LastsOn(p: Prospect, q: Option<Prospect>, nows: seq<Time>, x: Time, y: Time)
    requires nows != [] && q == PassProspect(p, nows[0], x)
    ensures Lasts(p, nows, if FiresAt(p, nows, 0) then x else y) <==> q.Some? && Lasts(q.value, nows[1..], y)
  {
    hide Leq;
    if q.Some? && FiresAt(p, nows, 0) {
      OldIsOld(q.value, nows[1..], x, y);
    }
  }

  lemma FiresLater(p: Prospect, nows: seq<Time>, x: Time, i: nat)
    requires i > 0 && FiresAt(p, nows, i)
    ensures PassProspect(p, nows[0], x) == Some(p) && FiresAt(p, nows[1..], i - 1)
  {
    hide Leq;
  }

  // How often the clock has been read after passes at these times.
  function TicksAfter(requests: nat -> Request, clock: Clock, s: Server, tl: TimerList<Owner>, nows: seq<Time>): nat
    requires Behaves(OnRequest(requests, clock)) && Behaves(OnExpiry(clock)) && WellFormed(tl)
  {
    Run(OnRequest(requests, clock), OnExpiry(clock), s, tl, Passes(nows)).st.ticks
  }

  lemma RunPasses(requests: nat -> Request, clock: Clock, s: Server, tl: TimerList<Owner>, nows: seq<Time>)
    requires Behaves(OnRequest(requests, clock)) && Behaves(OnExpiry(clock)) && WellFormed(tl)
    ensures nows == [] ==> Run(OnRequest(requests, clock), OnExpiry(clock), s, tl, Passes(nows)) == Passed(s, tl, [])
    ensures nows != [] ==>
              var v := Check(OnExpiry(clock), s, tl, nows[0]);
              && WellFormed(v.tl)
              && var p, q := Run(OnRequest(requests, clock), OnExpiry(clock), s, tl, Passes(nows)),
                             Run(OnRequest(requests, clock), OnExpiry(clock), v.st, v.tl, Passes(nows[1..]));
                 p.st == q.st && p.tl == q.tl
  {
    hide Behaves, WellFormed, OnExpiry, OnRequest, Check;
    if nows != [] {
      assert Passes(nows)[0] == PassAt(nows[0]) && Passes(nows)[1..] == Passes(nows[1..]);
      StepLogs(OnRequest(requests, clock), OnExpiry(clock), s, tl, PassAt(nows[0]), 0);
    }
  }

  lemma TicksOn(requests: nat -> Request, clock: Clock, s: Server, tl: TimerList<Owner>, nows: seq<Time>, i: nat)
    requires Behaves(OnRequest(requests, clock)) && Behaves(OnExpiry(clock)) && WellFormed(tl) && i <= |nows|
    ensures i == 0 ==> TicksAfter(requests, clock, s, tl, nows[..i]) == s.ticks
    ensures i > 0 ==>
              var v := Check(OnExpiry(clock), s, tl, nows[0]);
              WellFormed(v.tl)
                  && TicksAfter(requests, clock, s, tl, nows[..i])
                     == TicksAfter(requests, clock, v.st, v.tl, nows[1..][..i - 1])
  {
    hide Behaves, WellFormed, OnExpiry, OnRequest, Check, Run, Passes;
    RunPasses(requests, clock, s, tl, nows[..i]);
    if i > 0 {
      assert nows[..i][1..] == nows[1..][..i - 1];
    }
  }

  function Ran(requests: nat -> Request, clock: Clock, s: Server, tl: TimerList<Owner>, nows: seq<Time>): Db
    requires Behaves(OnRequest(requests, clock)) && Behaves(OnExpiry(clock)) && WellFormed(tl)
  {
    var p := Run(OnRequest(requests, clock), OnExpiry(clock), s, tl, Passes(nows));
    Whole(p.st, p.tl)
  }

  // The n-th reading of the clock is taken in the pass in which the timer fires for the first time.
  ghost predicate ReadThen(requests: nat -> Request, clock: Clock, s: Server, tl: TimerList<Owner>, nows: seq<Time>,
                           p: Prospect, n: nat)
    requires Behaves(OnRequest(requests, clock)) && Behaves(OnExpiry(clock)) && WellFormed(tl)
  {
    forall i :: 0 <= i < |nows| && FiresAt(p, nows, i) ==>
      TicksAfter(requests, clock, s, tl, nows[..i]) <= n <= TicksAfter(requests, clock, s, tl, nows[..i + 1])
  }

  lemma ReadFirst(requests: nat -> Request, clock: Clock, s: Server, tl: TimerList<Owner>, nows: seq<Time>, p: Prospect,
                  n: nat)
    requires Behaves(OnRequest(requests, clock)) && Behaves(OnExpiry(clock)) && WellFormed(tl) && nows != []
    requires FiresAt(p, nows, 0) && s.ticks <= n <= Check(OnExpiry(clock), s, tl, nows[0]).st.ticks
    ensures ReadThen(requests, clock, s, tl, nows, p, n)
  {
    hide Behaves, WellFormed, OnExpiry, OnRequest, Check, TicksAfter, FiresAt;
    TicksOn(requests, clock, s, tl, nows, 0);
    TicksOn(requests, clock, s, tl, nows, 1);
    var v := Check(OnExpiry(clock), s, tl, nows[0]);
    TicksOn(requests, clock, v.st, v.tl, nows[1..], 0);
    forall i | 0 <= i < |nows| && FiresAt(p, nows, i) ensures i == 0 {
      if i > 0 { FiresOnce(p, nows, i); }
    }
  }

  lemma ReadLater(requests: nat -> Request, clock: Clock, s: Server, tl: TimerList<Owner>, nows: seq<Time>, p: Prospect,
                  x: Time, n: nat)
    requires Behaves(OnRequest(requests, clock)) && Behaves(OnExpiry(clock)) && WellFormed(tl) && nows != []
    requires !FiresAt(p, nows, 0) && WellFormed(Check(OnExpiry(clock), s, tl, nows[0]).tl)
    requires PassProspect(p, nows[0], x) == Some(p) ==>
               var v := Check(OnExpiry(clock), s, tl, nows[0]);
               ReadThen(requests, clock, v.st, v.tl, nows[1..], p, n)
    ensures ReadThen(requests, clock, s, tl, nows, p, n)
  {
    hide Behaves, WellFormed, OnExpiry, OnRequest, Check, TicksAfter, FiresAt, PassProspect;
    var v := Check(OnExpiry(clock), s, tl, nows[0]);
    forall i | 0 <= i < |nows| && FiresAt(p, nows, i)
      ensures TicksAfter(requests, clock, s, tl, nows[..i]) <= n <= TicksAfter(requests, clock, s, tl, nows[..i + 1])
    {
      FiresLater(p, nows, x, i);
      TicksOn(requests, clock, s, tl, nows, i);
      TicksOn(requests, clock, s, tl, nows, i + 1);
    }
  }

  // Passes with no request in between: whether the lease is still there is decided by its
  // prospect before them. n is the reading of the clock that its second deadline counts from.
  lemma {:induction false} RunDecides(requests: nat -> Request, clock: Clock, s: Server, tl: TimerList<Owner>,
                                      nows: seq<Time>, l: nat)
    returns (n: nat)
    requires Behaves(OnRequest(requests, clock)) && Behaves(OnExpiry(clock)) && WellFormed(tl)
    requires Inv(Whole(s, tl)) && l in Whole(s, tl).leases
    ensures var db := Whole(s, tl);
            l in Ran(requests, clock, s, tl, nows).leases
            <==> Lasts(ProspectOf(db, l), nows, After(clock(n), Remaining(db.leases[l].addr)))
    ensures ReadThen(requests, clock, s, tl, nows, ProspectOf(Whole(s, tl), l), n)
    decreases |nows|
  {
    hide Behaves, WellFormed, OnExpiry, OnRequest, Check, Inv, After, Whole, ProspectOf, Leq, Ran, Lasts, FiresAt,
         PassProspect, ReadThen, Shrinks;
    n := 0;
    var p, db := ProspectOf(Whole(s, tl), l), Whole(s, tl);
    if nows == [] {
      RanNothing(requests, clock, s, tl, p, n, After(clock(n), Remaining(db.leases[l].addr)));
      return;
    }
    RanOn(requests, clock, s, tl, nows);
    var n1 := CheckDecides(clock, s, tl, nows[0], l);
    var v := Check(OnExpiry(clock), s, tl, nows[0]);
    var db1 := Whole(v.st, v.tl);
    var x := After(clock(n1), Remaining(db.leases[l].addr));
    var q := PassProspect(p, nows[0], x);
    var n2 := n1;
    if l in db1.leases {
      n2 := RunDecides(requests, clock, v.st, v.tl, nows[1..], l);
    } else {
      RunShrinks(requests, clock, v.st, v.tl, nows[1..]);
      GoneIsGone(db1, Ran(requests, clock, v.st, v.tl, nows[1..]), l);
    }
    LastsOn(p, q, nows, x, After(clock(n2), Remaining(db.leases[l].addr)));
    if FiresAt(p, nows, 0) {
      n := n1;
      ReadFirst(requests, clock, s, tl, nows, p, n);
    } else {
      n := n2;
      ReadLater(requests, clock, s, tl, nows, p, x, n);
    }
  }

  lemma RanNothing(requests: nat -> Request, clock: Clock, s: Server, tl: TimerList<Owner>, p: Prospect, n: nat,
                   again: Time)
    requires Behaves(OnRequest(requests, clock)) && Behaves(OnExpiry(clock)) && WellFormed(tl)
    ensures Ran(requests, clock, s, tl, []) == Whole(s, tl) && Lasts(p, [], again)
            && ReadThen(requests, clock, s, tl, [], p, n)
  {
    hide Behaves, WellFormed, OnExpiry, OnRequest, TicksAfter, FiresAt;
  }

  lemma RanOn(requests: nat -> Request, clock: Clock, s: Server, tl: TimerList<Owner>, nows: seq<Time>)
    requires Behaves(OnRequest(requests, clock)) && Behaves(OnExpiry(clock)) && WellFormed(tl) && nows != []
    ensures var v := Check(OnExpiry(clock), s, tl, nows[0]);
            WellFormed(v.tl) && Ran(requests, clock, s, tl, nows) == Ran(requests, clock, v.st, v.tl, nows[1..])
  {
    hide Behaves, WellFormed, OnExpiry, OnRequest, Check, Run, Passes;
    RunPasses(requests, clock, s, tl, nows);
  }

  lemma FiresOnce(p: Prospect, nows: seq<Time>, i: nat)
    requires i > 0 && FiresAt(p, nows, i)
    ensures !FiresAt(p, nows, 0)
  {
    hide Leq;
  }

  lemma {:induction false} RunShrinks(requests: nat -> Request, clock: Clock, s: Server, tl: TimerList<Owner>,
                                      nows: seq<Time>)
    requires Behaves(OnRequest(requests, clock)) && Behaves(OnExpiry(clock)) && WellFormed(tl)
    ensures Shrinks(Whole(s, tl), Ran(requests, clock, s, tl, nows))
    decreases |nows|
  {
    hide Behaves, WellFormed, OnExpiry, OnRequest, Pass, Ran, Whole;
    if nows == [] {
      RanNothing(requests, clock, s, tl, Prospect(Active, None, TM_MAX), 0, TM_MAX);
    } else {
      RanOn(requests, clock, s, tl, nows);
      OrderPending(tl);
      PendingAnew(tl);
      WholeAnew(s, tl);
      GoneStays(clock, s, tl.(sentinel := TM_MAX), tl.order, nows[0]);
      var v := Check(OnExpiry(clock), s, tl, nows[0]);
      RunShrinks(requests, clock, v.st, v.tl, nows[1..]);
    }
  }

  lemma WholeAnew(s: Server, tl: TimerList<Owner>)
    ensures Whole(s, tl.(sentinel := TM_MAX)).leases == Whole(s, tl).leases
  {
  }

  // ---------------------------------------------------------------------------
  // Renewed for ever
  // ---------------------------------------------------------------------------

  // The same record with the same deadlines, whatever address and age it has now.
  ghost predicate Tracks(was: Db, db: Db, l: nat) {
    && l in was.leases && l in db.leases
    && db.leases[l].timer == was.leases[l].timer && db.leases[l].binding == was.leases[l].binding
    && KeyOf(db.leases[l].addr) == KeyOf(was.leases[l].addr)
    && ProspectOf(db, l).own == ProspectOf(was, l).own && ProspectOf(db, l).end == ProspectOf(was, l).end
    && BindingTimer(db, db.leases[l].binding) == BindingTimer(was, was.leases[l].binding)
  }

  lemma TracksOn(a: Db, b: Db, c: Db, l: nat)
    ensures Tracks(a, b, l) && Tracks(b, c, l) ==> Tracks(a, c, l)
    ensures Spares(a, b, l) ==> Tracks(a, b, l) && b.leases[l].state == a.leases[l].state
    ensures l in a.leases ==> Tracks(a, a, l)
  {
    hide ProspectOf, BindingTimer;
  }

  ghost predicate Anchored(db: Db, l: nat) {
    l in db.leases && db.leases[l].binding in db.bindings && db.bindings[db.leases[l].binding].timer.Some?
  }

  lemma AnchoredOn(a: Db, b: Db, l: nat, x: nat)
    requires Anchored(a, l) && Tracks(a, b, l) && OthersKept(a, b, x)
    ensures Anchored(b, l)
  {
    hide ProspectOf;
    OthersKeptMeans(a, b, x);
  }

  lemma TimersKnown(db: Db, l: nat, loose: set<nat>)
    requires InvBut(db, loose) && Anchored(db, l)
    ensures db.leases[l].timer.Some? ==>
              db.leases[l].timer.value in db.timers.recs && db.leases[l].timer.value < db.timers.next
    ensures var t := db.bindings[db.leases[l].binding].timer.value;
            t in db.timers.recs && t < db.timers.next && db.timers.recs[t].owner == OfBinding(db.leases[l].binding)
    ensures l < db.next
  {
    hide Listing, Indexed, Registered, Distinct;
  }

  lemma AddSpares(db: Db, b: nat, a: Addr, now: Time, l: nat, loose: set<nat>)
    requires InvBut(db, loose) && b in db.bindings && Anchored(db, l)
    ensures Spares(db, AddLease(db, b, a, now), l)
  {
    TimersKnown(db, l, loose);
    hide InvBut, After, Good, KeyOf;
  }

  // Timers that are not the lease's do not matter to it.
  ghost predicate Foreign(db: Db, timer: Option<nat>, l: nat)
    requires Anchored(db, l)
  {
    timer.Some? ==> timer != db.leases[l].timer && timer != db.bindings[db.leases[l].binding].timer
  }

  lemma ArmSpares(db: Db, x: nat, now: Time, l: nat)
    requires x in db.leases && x != l && Anchored(db, l) && Foreign(db, db.leases[x].timer, l)
    requires db.leases[l].timer.Some? ==> db.leases[l].timer.value < db.timers.next
    requires db.bindings[db.leases[l].binding].timer.value < db.timers.next
    ensures Spares(db, ArmLease(db, x, now), l)
  {
    hide After;
  }

  // Another lease renewed or removed.
  lemma UpdateSpares(db: Db, x: nat, a: Addr, now: Time, l: nat, loose: set<nat>)
    requires InvBut(db, loose) && x in db.leases && x != l && Anchored(db, l)
    ensures Spares(db, UpdateLease(db, x, a, now), l)
  {
    hide InvBut, ArmLease, RemoveLease, Good, Spares;
    TimersKnown(db, l, loose);
    if Good(a) {
      OthersAlarm(db, x, l, loose);
      var db0 := db.(leases := db.leases[x := db.leases[x].(addr := a, state := Active)]);
      ChangeSpares(db, x, db0.leases[x], l);
      ArmSpares(db0, x, now, l);
      SparesOn(db, db0, ArmLease(db0, x, now), l);
    } else {
      RemoveLeaseSpares(db, x, l);
    }
  }

  lemma ChangeSpares(db: Db, x: nat, lease: Lease, l: nat)
    requires x != l && l in db.leases
    ensures Spares(db, db.(leases := db.leases[x := lease]), l)
  {
  }

  lemma OthersAlarm(db: Db, x: nat, l: nat, loose: set<nat>)
    requires InvBut(db, loose) && x in db.leases && x != l && Anchored(db, l)
    ensures db.leases[x].timer.Some? ==>
              db.leases[x].timer != db.leases[l].timer && db.leases[x].timer != db.bindings[db.leases[l].binding].timer
  {
    hide Listing, Indexed, Registered, WellFormed;
  }

  // This lease renewed for ever: its timers stay as they are.
  lemma ForEverTracks(db: Db, a: Addr, now: Time, l: nat)
    requires l in db.leases && Good(a) && Infinite(a) && KeyOf(a) == KeyOf(db.leases[l].addr)
    ensures var db1 := UpdateLease(db, l, a, now);
            Tracks(db, db1, l) && db1.leases[l] == db.leases[l].(addr := a, state := Active)
  {
    InfiniteKeepsTimer(db, l, a, now);
  }

  // One entry of the reply.
  lemma OneTracks(db: Db, b: nat, a: Addr, now: Time, l: nat, loose: set<nat>)
    requires InvBut(db, loose) && b in db.bindings && Anchored(db, l) && db.leases[l].binding == b
    requires KeyOf(a) == KeyOf(db.leases[l].addr) ==> Good(a) && Infinite(a)
    ensures var db1 := UpdateOne(db, b, a, now);
            && Tracks(db, db1, l)
            && db1.leases[l].state == (if KeyOf(a) == KeyOf(db.leases[l].addr) then Active else db.leases[l].state)
  {
    hide InvBut, FindLease, UpdateLease, AddLease, Tracks, Spares, Good, KeyOf, HeldBy;
    FindIsHolder(db, b, a, loose);
    LeaseKnown(db, l, loose);
    var found := FindLease(db, b, a);
    HeldByKey(db, l, loose);
    if found.Some? {
      if found.value == l {
        ForEverTracks(db, a, now, l);
      } else {
        UpdateSpares(db, found.value, a, now, l, loose);
        TracksOn(db, UpdateLease(db, found.value, a, now), db, l);
      }
    } else {
      AddSpares(db, b, a, now, l, loose);
      TracksOn(db, AddLease(db, b, a, now), db, l);
    }
  }

  lemma HeldByKey(db: Db, l: nat, loose: set<nat>)
    requires InvBut(db, loose) && l in db.leases
    ensures HeldBy(db, KeyOf(db.leases[l].addr), db.leases[l].binding)
    ensures db.leaseTable[KeyOf(db.leases[l].addr)] == l
            && Holder(db, KeyOf(db.leases[l].addr)) == Some(Held(db.leases[l].binding, db.leases[l].addr))
  {
    hide InvBut, KeyOf;
    LeaseKnown(db, l, loose);
  }

  ghost predicate ForEver(infos: seq<Addr>, k: Key) {
    forall i :: 0 <= i < |infos| && KeyOf(infos[i]) == k ==> Good(infos[i]) && Infinite(infos[i])
  }

  lemma {:induction false} AllTracks(db: Db, b: nat, infos: seq<Addr>, now: Time, l: nat, loose: set<nat>)
    requires InvBut(db, loose) && b in db.bindings && Anchored(db, l) && db.leases[l].binding == b
    requires ForEver(infos, KeyOf(db.leases[l].addr))
    ensures var db1 := UpdateAll(db, b, infos, now);
            && Tracks(db, db1, l) && Anchored(db1, l)
            && (LastFor(infos, KeyOf(db.leases[l].addr)).Some? || db.leases[l].state == Active ==>
                  db1.leases[l].state == Active)
    decreases |infos|
  {
    hide InvBut, UpdateOne, Tracks, Anchored, Good, Infinite, KeyOf, OthersKept;
    AnchoredMeans(db, l);
    TracksOn(db, db, db, l);
    if infos != [] {
      OneTracks(db, b, infos[0], now, l, loose);
      UpdateOneKeeps(db, b, infos[0], now, loose);
      var db1 := UpdateOne(db, b, infos[0], now);
      OthersKeptMeans(db, db1, b);
      AnchoredOn(db, db1, l, b);
      TracksMeans(db, db1, l);
      AllTracks(db1, b, infos[1..], now, l, loose);
      TracksOn(db, db1, UpdateAll(db1, b, infos[1..], now), l);
    }
  }

  lemma AnchoredMeans(db: Db, l: nat)
    requires Anchored(db, l)
    ensures l in db.leases && db.leases[l].binding in db.bindings
  {
  }

  lemma TracksMeans(was: Db, db: Db, l: nat)
    requires Tracks(was, db, l)
    ensures l in was.leases && l in db.leases && db.leases[l].binding == was.leases[l].binding
    ensures KeyOf(db.leases[l].addr) == KeyOf(was.leases[l].addr)
    ensures ProspectOf(db, l).own == ProspectOf(was, l).own
  {
  }

  lemma {:induction false} PruneSpares(db: Db, list: seq<nat>, infos: seq<Addr>, l: nat)
    requires l in db.leases && Listed(infos, db.leases[l].addr)
    ensures Spares(db, Prune(db, list, infos), l)
    decreases |list|
  {
    hide RemoveLease, Spares, Listed;
    SparesOn(db, db, db, l);
    if list != [] {
      var taken := list[0] in db.leases && !Listed(infos, db.leases[list[0]].addr);
      var db1 := if taken then RemoveLease(db, list[0]) else db;
      if taken {
        RemoveLeaseSpares(db, list[0], l);
      }
      SparesMeans(db, db1, l);
      PruneSpares(db1, list[1..], infos, l);
      SparesOn(db, db1, Prune(db1, list[1..], infos), l);
    }
  }

  // The binding's timer is set anew; the lease's own is another.
  lemma SettleTracks(db: Db, b: nat, now: Time, l: nat)
    requires InvBut(db, {}) && Anchored(db, l) && db.leases[l].binding == b
    ensures var db1 := Settle(db, b, now);
            l in db1.leases && db1.leases[l] == db.leases[l] && b in db1.bindings
                && ProspectOf(db1, l).own == ProspectOf(db, l).own
  {
    Kept(db, l);
    BothTimers(db, l);
    hide InvBut, After, MaxValid;
  }

  lemma BothTimers(db: Db, l: nat)
    requires InvBut(db, {}) && Anchored(db, l)
    ensures OwnTimers(db, l, db.leases[l].timer, db.bindings[db.leases[l].binding].timer.value)
  {
    hide Listing, Indexed, Registered, WellFormed;
  }

  // After a renewal that renews the lease for ever, it is young, its own timer is due when it was
  // due before, and its binding's after the longest valid lifetime the binding holds.
  lemma RenewedForEver(db: Db, client: Client, infos: seq<Addr>, now: Time, l: nat) returns (longest: nat)
    requires Inv(db) && client in db.bindingTable && l in db.leases && db.leases[l].binding == db.bindingTable[client]
    requires LastFor(infos, KeyOf(db.leases[l].addr)).Some? && ForEver(infos, KeyOf(db.leases[l].addr))
    ensures var db1 := UpdateBinding(db, client, infos, true, now);
            && Inv(db1) && l in db1.leases && db1.leases[l].addr == LastFor(infos, KeyOf(db.leases[l].addr)).value
            && ProspectOf(db1, l) == Prospect(Active, ProspectOf(db, l).own, After(now, longest))
            && LongestHeld(db1, db.bindingTable[client], longest)
  {
    hide InvBut, Inv, UpdateAll, Prune, Settle, Tracks, Anchored, Spares, ForEver, KeyOf, OwnTimers, After, ProspectOf,
         Good, Infinite, BindingTimer;
    var b, k := db.bindingTable[client], KeyOf(db.leases[l].addr);
    InvImplies(db);
    TableLeads(db, client);
    InvAnchored(db, l);
    UpdateExactly(db, client, infos, true, now);
    AllTracks(db, b, infos, now, l, {});
    UpdateAllKeeps(db, b, infos, now, {});
    var db1 := UpdateAll(db, b, infos, now);
    OthersKeptMeans(db, db1, b);
    TracksMeans(db, db1, l);
    AddrRenewed(db, b, infos, now, l);
    ListedIsLast(infos, db1.leases[l].addr);
    PruneSpares(db1, db1.bindings[b].list, infos, l);
    PruneOf(db1, b, infos, {});
    var db2 := Prune(db1, db1.bindings[b].list, infos);
    OthersKeptMeans(db1, db2, b);
    SparesMeans(db1, db2, l);
    TracksOn(db1, db2, db2, l);
    AnchoredOn(db1, db2, l, b);
    SettleTracks(db2, b, now, l);
    longest := EndOf(Settle(db2, b, now), b, l, now);
    ProspectIs(Settle(db2, b, now), l);
  }

  // The longest valid lifetime among what a binding holds.
  ghost predicate LongestHeld(db: Db, b: nat, longest: nat) {
    && (exists k :: HeldBy(db, k, b) && Holder(db, k).value.addr.valid == longest)
    && (forall k :: HeldBy(db, k, b) ==> Holder(db, k).value.addr.valid <= longest)
  }

  lemma InvAnchored(db: Db, l: nat)
    requires Inv(db) && l in db.leases
    ensures Anchored(db, l)
  {
    hide InvBut;
    KeptBinding(db, l);
  }

  lemma KeptBinding(db: Db, l: nat)
    requires InvBut(db, {}) && l in db.leases
    ensures db.leases[l].binding in db.bindings
  {
    hide InvBut;
    Kept(db, l);
  }

  lemma AddrRenewed(db: Db, b: nat, infos: seq<Addr>, now: Time, l: nat)
    requires InvBut(db, {}) && b in db.bindings && l in db.leases && db.leases[l].binding == b
    requires InvBut(UpdateAll(db, b, infos, now), {}) && Tracks(db, UpdateAll(db, b, infos, now), l)
    requires LastFor(infos, KeyOf(db.leases[l].addr)).Some? && ForEver(infos, KeyOf(db.leases[l].addr))
    ensures UpdateAll(db, b, infos, now).leases[l].addr == LastFor(infos, KeyOf(db.leases[l].addr)).value
  {
    hide InvBut, UpdateAll, Tracks, KeyOf, Good, Infinite, HeldBy, Holder;
    var db1, k := UpdateAll(db, b, infos, now), KeyOf(db.leases[l].addr);
    TracksMeans(db, db1, l);
    HeldByKey(db, l, {});
    HeldByKey(db1, l, {});
    UpdateAllHolds(db, b, infos, now, {}, k);
    LastIsOne(infos, k);
  }

  lemma {:induction false} LastIsOne(infos: seq<Addr>, k: Key)
    ensures LastFor(infos, k).Some? ==>
              exists i :: 0 <= i < |infos| && infos[i] == LastFor(infos, k).value && KeyOf(infos[i]) == k
  {
    hide KeyOf;
    if infos != [] {
      LastIsOne(infos[1..], k);
      if LastFor(infos[1..], k).Some? {
        var i :| 0 <= i < |infos[1..]| && infos[1..][i] == LastFor(infos[1..], k).value && KeyOf(infos[1..][i]) == k;
        assert infos[i + 1] == infos[1..][i];
      }
    }
  }

  lemma EndOf(db: Db, b: nat, l: nat, now: Time) returns (longest: nat)
    requires l in db.leases && db.leases[l].binding == b && b in db.bindings && Standing(db, b, now)
    ensures ProspectOf(db, l).end == After(now, longest) && LongestHeld(db, b, longest)
  {
    hide After, Holder;
    var k :| HeldBy(db, k, b)
      && db.timers.recs[db.bindings[b].timer.value].due == After(now, Holder(db, k).value.addr.valid)
      && forall j :: HeldBy(db, j, b) ==> Holder(db, j).value.addr.valid <= Holder(db, k).value.addr.valid;
    longest := Holder(db, k).value.addr.valid;
  }

  lemma ProspectIs(db: Db, l: nat)
    requires l in db.leases
    ensures var p := ProspectOf(db, l); p == Prospect(db.leases[l].state, p.own, p.end)
  {
  }

  // A lease renewed for ever, and then passes with no request in between: it is still held
  // exactly if no pass comes to the deadline of its binding, and none comes to the second
  // deadline of the timer the lease had before, if it had one, after one has come to the first.
  lemma InfiniteExpiresExactly(requests: nat -> Request, clock: Clock, db: Db, client: Client, infos: seq<Addr>,
                               now: Time, l: nat,
                               ticks: nat, nows: seq<Time>) returns (longest: nat, n: nat)
    requires Inv(db) && client in db.bindingTable && l in db.leases && db.leases[l].binding == db.bindingTable[client]
    requires LastFor(infos, KeyOf(db.leases[l].addr)).Some? && ForEver(infos, KeyOf(db.leases[l].addr))
    ensures Behaves(OnRequest(requests, clock)) && Behaves(OnExpiry(clock))
    ensures var db1 := UpdateBinding(db, client, infos, true, now);
            WellFormed(db1.timers) && l in db1.leases && LongestHeld(db1, db.bindingTable[client], longest)
    ensures var db1 := UpdateBinding(db, client, infos, true, now);
            var p := Prospect(Active, ProspectOf(db, l).own, After(now, longest));
            var again := After(clock(n), Remaining(LastFor(infos, KeyOf(db.leases[l].addr)).value));
            && (l in Ran(requests, clock, Server(db1, ticks), db1.timers, nows).leases <==> Survives(p, nows, again))
            && ReadThen(requests, clock, Server(db1, ticks), db1.timers, nows, p, n)
  {
    hide Inv, Behaves, OnRequest, OnExpiry, WellFormed, UpdateBinding, After, ProspectOf, Survives, Ran, Lasts,
         ReadThen, ForEver, KeyOf, LongestHeld;
    CallbacksBehave(requests, clock);
    longest := RenewedForEver(db, client, infos, now, l);
    var db1 := UpdateBinding(db, client, infos, true, now);
    n := LeaseDecides(requests, clock, db1, ticks, nows, l);
  }

  lemma LeaseDecides(requests: nat -> Request, clock: Clock, db: Db, ticks: nat, nows: seq<Time>, l: nat)
    returns (n: nat)
    requires Behaves(OnRequest(requests, clock)) && Behaves(OnExpiry(clock)) && Inv(db) && l in db.leases
    ensures WellFormed(db.timers)
    ensures l in Ran(requests, clock, Server(db, ticks), db.timers, nows).leases
       <==> Survives(ProspectOf(db, l), nows, After(clock(n), Remaining(db.leases[l].addr)))
    ensures ReadThen(requests, clock, Server(db, ticks), db.timers, nows, ProspectOf(db, l), n)
  {
    hide Inv, Behaves, OnRequest, OnExpiry, WellFormed, After, ProspectOf, Survives, Ran, Lasts, ReadThen;
    InvWellFormed(db);
    assert Whole(Server(db, ticks), db.timers) == db;
    n := RunDecides(requests, clock, Server(db, ticks), db.timers, nows, l);
    LastsExactly(ProspectOf(db, l), nows, After(clock(n), Remaining(db.leases[l].addr)));
  }

  // ---------------------------------------------------------------------------
  // Granted for ever
  // ---------------------------------------------------------------------------

  // New leases are young; an infinite one has no timer.
  ghost predicate YoungSince(was: Db, db: Db) {
    && (forall x :: x in was.leases ==> x in db.leases && db.leases[x] == was.leases[x])
    && (forall x :: x in db.leases && x !in was.leases ==>
          db.leases[x].state == Active && (Infinite(db.leases[x].addr) ==> db.leases[x].timer.None?))
  }

  lemma AddIsYoung(db: Db, b: nat, a: Addr, now: Time, loose: set<nat>)
    requires InvBut(db, loose) && b in db.bindings
    ensures YoungSince(db, AddLease(db, b, a, now))
  {
    NextIsNew(db, loose);
    hide InvBut, After, Good, KeyOf;
  }

  lemma NextIsNew(db: Db, loose: set<nat>)
    requires InvBut(db, loose)
    ensures db.next !in db.leases
  {
  }

  lemma {:induction false} AllAreYoung(db: Db, b: nat, infos: seq<Addr>, now: Time, loose: set<nat>)
    requires InvBut(db, loose) && b in db.bindings
    ensures YoungSince(db, AddAll(db, b, infos, now))
    decreases |infos|
  {
    hide InvBut, AddLease, OthersKept;
    if infos != [] {
      AddIsYoung(db, b, infos[0], now, loose);
      AddLeaseKeeps(db, b, infos[0], now, loose);
      OthersKeptMeans(db, AddLease(db, b, infos[0], now), b);
      AllAreYoung(AddLease(db, b, infos[0], now), b, infos[1..], now, loose);
    }
  }

  // A new client's lease that is infinite from the start has no timer but its binding's.
  lemma GrantedForEver(db: Db, client: Client, infos: seq<Addr>, now: Time, k: Key) returns (l: nat, longest: nat)
    requires Inv(db) && client !in db.bindingTable && Holder(db, k).None?
    requires FirstGood(infos, k).Some? && Infinite(FirstGood(infos, k).value)
    ensures var db1 := AddBinding(db, client, infos, now);
            && Inv(db1) && k in db1.leaseTable && l == db1.leaseTable[k] && l in db1.leases
            && db1.leases[l].addr == FirstGood(infos, k).value
            && ProspectOf(db1, l) == Prospect(Active, None, After(now, longest)) && LongestHeld(db1, db.next, longest)
  {
    hide InvBut, Inv, AddAll, ArmBinding, After, KeyOf, FirstGood, Infinite, Standing, Grants, LongestHeld;
    var b, db0 := db.next, Begun(db, client);
    BeginKeeps(db, client);
    AddAllKeeps(db0, b, infos, now, {b});
    AllAreYoung(db0, b, infos, now, {b});
    AddExactly(db, client, infos, now);
    var db1 := AddAll(db0, b, infos, now);
    OthersKeptMeans(db0, db1, b);
    GrantsSome(db, infos, k);
    FreshLease(db0, db1, b, k, FirstGood(infos, k).value);
    NothingHeld(db1, b, {b});
    var db2 := AddBinding(db, client, infos, now);
    l := db1.leaseTable[k];
    ArmKeepsLeases(db1.(bindingTable := db1.bindingTable[client := b]), b, now);
    longest := EndOf(db2, b, l, now);
    ProspectIs(db2, l);
  }

  lemma FreshLease(was: Db, db: Db, b: nat, k: Key, a: Addr)
    requires InvBut(was, {b}) && InvBut(db, {b}) && YoungSince(was, db) && Infinite(a)
    requires Holder(was, k).None? && Holder(db, k) == Some(Held(b, a))
    ensures k in db.leaseTable && db.leaseTable[k] in db.leases && HeldBy(db, k, b)
    ensures var lease := db.leases[db.leaseTable[k]];
            lease.addr == a && lease.binding == b && lease.state == Active && lease.timer.None?
  {
    hide InvBut, KeyOf, Infinite;
    FreeIsUnheld(was, k, {b});
    KeyLeads(db, k, {b});
    var l := db.leaseTable[k];
    if l in was.leases {
      LeaseKnown(was, l, {b});
    }
  }

  lemma KeyLeads(db: Db, k: Key, loose: set<nat>)
    requires InvBut(db, loose) && k in db.leaseTable
    ensures db.leaseTable[k] in db.leases && KeyOf(db.leases[db.leaseTable[k]].addr) == k
  {
    hide Listing, Registered, Timed;
  }

  lemma ArmKeepsLeases(db: Db, b: nat, now: Time)
    requires b in db.bindings
    ensures var db1 := ArmBinding(db, b, now);
            db1.leases == db.leases && db1.leaseTable == db.leaseTable && b in db1.bindings
  {
    hide After, MaxValid;
  }

  lemma GrantsSome(db: Db, infos: seq<Addr>, k: Key)
    requires Holder(db, k).None? && FirstGood(infos, k).Some?
    ensures Grants(db, infos)
  {
    hide Holder, FirstGood;
  }

  // A lease granted for ever to a new client lasts exactly until a pass comes to the deadline of
  // its binding, the longest valid lifetime granted with it.
  lemma GrantedExpiresExactly(requests: nat -> Request, clock: Clock, db: Db, client: Client, infos: seq<Addr>,
                              now: Time, k: Key,
                              ticks: nat, nows: seq<Time>) returns (l: nat, longest: nat)
    requires Inv(db) && client !in db.bindingTable && Holder(db, k).None?
    requires FirstGood(infos, k).Some? && Infinite(FirstGood(infos, k).value)
    ensures Behaves(OnRequest(requests, clock)) && Behaves(OnExpiry(clock))
    ensures var db1 := AddBinding(db, client, infos, now);
            && WellFormed(db1.timers) && k in db1.leaseTable && l == db1.leaseTable[k]
               && LongestHeld(db1, db.next, longest)
            && (l in Ran(requests, clock, Server(db1, ticks), db1.timers, nows).leases <==>
                  !Reached(After(now, longest), nows))
  {
    hide Inv, Behaves, OnRequest, OnExpiry, WellFormed, AddBinding, After, ProspectOf, Ran, ReadThen, KeyOf,
         LongestHeld, Holder, FirstGood, Infinite, Reached;
    CallbacksBehave(requests, clock);
    l, longest := GrantedForEver(db, client, infos, now, k);
    var n := LeaseDecides(requests, clock, AddBinding(db, client, infos, now), ticks, nows, l);
  }

  // ---------------------------------------------------------------------------
  // Two leases for ever that end
  // ---------------------------------------------------------------------------

  function Seconds(n: nat): Time {
    Time(n, 0)
  }

  // A lease for a hundred seconds, preferred for ever.
  function Preferred(ip: Octets): Addr {
    Addr(IaNa, ip, 0, INFINITE, 100, SUCCESS)
  }

  // Granted at 0, it has no timer of its own; its binding's takes it at 100.
  lemma PreferredRunsOut(requests: nat -> Request, clock: Clock, client: Client, ip: Octets, ticks: nat)
    returns (l: nat)
    ensures Behaves(OnRequest(requests, clock)) && Behaves(OnExpiry(clock))
    ensures var db := AddBinding(NewDb(), client, [Preferred(ip)], Seconds(0));
            && WellFormed(db.timers) && l in db.leases && db.leases[l].timer.None?
            && l !in Ran(requests, clock, Server(db, ticks), db.timers, [Seconds(100)]).leases
  {
    hide Inv, Behaves, OnRequest, OnExpiry, WellFormed, AddBinding, Ran, ReadThen, Holder, Standing, Grants;
    StartInv();
    assert Whole(Server(NewDb(), 0), NewList()) == NewDb();
    var a, k := Preferred(ip), KeyOf(Preferred(ip));
    NoneHeld();
    assert FirstGood([a], k) == Some(a);
    var longest;
    var l1, m := GrantedForEver(NewDb(), client, [a], Seconds(0), k);
    l, longest := GrantedExpiresExactly(requests, clock, NewDb(), client, [a], Seconds(0), k, ticks, [Seconds(100)]);
    AddExactly(NewDb(), client, [a], Seconds(0));
    OnlyOne(AddBinding(NewDb(), client, [a], Seconds(0)), 0, a, longest);
    assert Leq(After(Seconds(0), longest), [Seconds(100)][0]);
  }

  lemma NoneHeld()
    ensures forall k :: Holder(NewDb(), k).None?
  {
  }

  lemma OnlyOne(db: Db, b: nat, a: Addr, longest: nat)
    requires LongestHeld(db, b, longest) && forall k :: Holder(db, k) == Granted([a], b, k, None)
    ensures longest == a.valid
  {
    var k :| HeldBy(db, k, b) && Holder(db, k).value.addr.valid == longest;
    assert FirstGood([a], k).Some? ==> FirstGood([a], k).value == a by { assert [a][1..] == []; }
    hide KeyOf, Good;
  }

  // An address for a hundred seconds of use and two hundred of life, or for ever.
  function Short(ip: Octets): Addr {
    Addr(IaNa, ip, 0, 100, 200, SUCCESS)
  }

  function Endless(ip: Octets): Addr {
    Addr(IaNa, ip, 0, INFINITE, INFINITE, SUCCESS)
  }

  // The database after the grant at 0.
  function ShortGranted(client: Client, ip: Octets): Db {
    Db(map[1 := Lease(Short(ip), Active, Some(0), 0)], map[0 := Binding(client, Some(1), [1])],
       map[KeyOf(Short(ip)) := 1], map[client := 0],
       TimerList([1, 0],
                 map[0 := Timer(Seconds(100), false, OfLease(1)), 1 := Timer(Seconds(200), false, OfBinding(0))],
                     Seconds(100), 2),
       2, false)
  }

  // Before it is registered and its binding's timer runs.
  function ShortLeased(client: Client, ip: Octets): Db {
    Db(map[1 := Lease(Short(ip), Active, Some(0), 0)], map[0 := Binding(client, None, [1])],
       map[KeyOf(Short(ip)) := 1], map[],
       TimerList([0], map[0 := Timer(Seconds(100), false, OfLease(1))], Seconds(100), 1), 2, false)
  }

  lemma LeasedIs(client: Client, ip: Octets)
    ensures AddAll(Begun(NewDb(), client), 0, [Short(ip)], Seconds(0)) == ShortLeased(client, ip)
  {
    var db0, a := Begun(NewDb(), client), Short(ip);
    assert [a][1..] == [] && [] + [1] == [1] && [0] + [] == [0];
    assert After(Seconds(0), 100) == Seconds(100);
    assert AddLease(db0, 0, a, Seconds(0)) == ShortLeased(client, ip);
  }

  lemma GrantedIs(client: Client, ip: Octets)
    ensures AddBinding(NewDb(), client, [Short(ip)], Seconds(0)) == ShortGranted(client, ip)
  {
    hide AddAll, KeyOf;
    LeasedIs(client, ip);
    var db1 := ShortLeased(client, ip);
    var db2 := db1.(bindingTable := db1.bindingTable[client := 0]);
    assert [1][1..] == [] && [1] + [0] == [1, 0];
    assert MaxValid(db2, [1]) == 200;
    assert After(Seconds(0), 200) == Seconds(200);
    assert ArmBinding(db2, 0, Seconds(0)) == ShortGranted(client, ip);
  }

  function GrantThenRenew(client: Client, ip: Octets): nat -> Request {
    n => if n == 0 then Ask(client, [Short(ip)]) else Renew(client, [Endless(ip)])
  }

  // The clock reads 0 at the grant, 50 at the renewal and 100 from then on.
  function Readings(): Clock {
    (n: nat) => Reading(n)
  }

  function Reading(n: nat): (t: Time)
    ensures Normal(t)
  {
    if n == 0 then Seconds(0) else if n == 1 then Seconds(50) else Seconds(100)
  }

  lemma ServeIs(requests: nat -> Request, clock: Clock, s: Server, tl: TimerList<Owner>, n: nat)
    ensures var db := Serve(Whole(s, tl), requests(n), clock(s.ticks));
            OnRequest(requests, clock)(s, tl, n) == (Server(db, s.ticks + 1), db.timers, true)
  {
    hide Serve, Whole;
  }

  lemma RunServes(requests: nat -> Request, clock: Clock, s: Server, tl: TimerList<Owner>, n: nat, rest: seq<Move>)
    requires Behaves(OnRequest(requests, clock)) && Behaves(OnExpiry(clock)) && WellFormed(tl)
    ensures var db := Serve(Whole(s, tl), requests(n), clock(s.ticks));
            && WellFormed(db.timers)
            && var p, q := Run(OnRequest(requests, clock), OnExpiry(clock), s, tl, [Handle(n)] + rest),
                           Run(OnRequest(requests, clock), OnExpiry(clock), Server(db, s.ticks + 1), db.timers, rest);
               p.st == q.st && p.tl == q.tl
  {
    hide Behaves, OnExpiry, OnRequest, WellFormed, Serve, Whole, Check;
    ServeIs(requests, clock, s, tl, n);
    assert ([Handle(n)] + rest)[1..] == rest && ([Handle(n)] + rest)[0] == Handle(n);
    StepLogs(OnRequest(requests, clock), OnExpiry(clock), s, tl, Handle(n), 0);
  }

  // A timer that fires at the first pass and a second time at the next.
  lemma TwoPasses(p: Prospect, again: Time)
    requires p.state == Active && p.own == Some(Seconds(100))
    requires FiresAt(p, [Seconds(100), Seconds(101)], 0) ==> again == Seconds(100)
    ensures !Survives(p, [Seconds(100), Seconds(101)], again)
  {
    var nows := [Seconds(100), Seconds(101)];
    assert nows[0] == Seconds(100) && nows[0 + 1..] == [Seconds(101)];
    if !Leq(p.end, nows[0]) {
      assert FiresAt(p, nows, 0);
      assert Leq(again, [Seconds(101)][0]);
      assert Reached(again, nows[0 + 1..]);
    }
  }

  // From the empty server: an address granted at 0 for two hundred seconds and renewed for ever
  // at 50 is no longer leased after passes at 100 and 101, because the timer of the grant ran on.
  lemma RenewedRunsOut(client: Client, ip: Octets)
    ensures var requests, clock := GrantThenRenew(client, ip), Readings();
            var moves := [Handle(0)] + ([Handle(1)] + Passes([Seconds(100), Seconds(101)]));
            && Behaves(OnRequest(requests, clock)) && Behaves(OnExpiry(clock)) && WellFormed(NewList<Owner>())
            && var p := Run(OnRequest(requests, clock), OnExpiry(clock), Server(NewDb(), 0), NewList(), moves);
               1 !in Whole(p.st, p.tl).leases
    ensures var db := UpdateBinding(ShortGranted(client, ip), client, [Endless(ip)], true, Seconds(50));
            1 in db.leases && db.leases[1].addr == Endless(ip)
  {
    hide Behaves, OnRequest, OnExpiry, WellFormed, Run, AddBinding, UpdateBinding, NewDb, NewList, Passes, ShortGranted;
    var requests, clock, nows := GrantThenRenew(client, ip), Readings(), [Seconds(100), Seconds(101)];
    StartInv();
    StartsEmpty(client);
    GrantedIs(client, ip);
    KnownThen(client, ip);
    RenewalRunsOut(requests, client, ip);
    var db1 := ShortGranted(client, ip);
    RunServes(requests, clock, Server(NewDb(), 0), NewList(), 0, [Handle(1)] + Passes(nows));
    WholeIs(db1, 1);
    RunServes(requests, clock, Server(db1, 1), db1.timers, 1, Passes(nows));
  }

  lemma KnownThen(client: Client, ip: Octets)
    ensures client in ShortGranted(client, ip).bindingTable
  {
  }

  lemma RenewalRunsOut(requests: nat -> Request, client: Client, ip: Octets)
    ensures Behaves(OnRequest(requests, Readings())) && Behaves(OnExpiry(Readings()))
    ensures var db := UpdateBinding(ShortGranted(client, ip), client, [Endless(ip)], true, Seconds(50));
            && WellFormed(db.timers) && 1 in db.leases && db.leases[1].addr == Endless(ip)
            && 1 !in Ran(requests, Readings(), Server(db, 2), db.timers, [Seconds(100), Seconds(101)]).leases
  {
    hide Behaves, OnRequest, OnExpiry, WellFormed, Run, Inv, AddBinding, UpdateBinding, Survives, LongestHeld, Ran,
         TicksAfter, FiresAt, KeyOf, Standing, Grants, Holder,
         Readings, After, ShortGranted, ReadThen, LastFor, ForEver, Good, Infinite;
    var clock, nows := Readings(), [Seconds(100), Seconds(101)];
    var db1 := ShortGranted(client, ip);
    ShortIsSound(client, ip);
    OneEntry(Endless(ip));
    var longest, n := InfiniteExpiresExactly(requests, clock, db1, client, [Endless(ip)], Seconds(50), 1, 2, nows);
    var db2 := UpdateBinding(db1, client, [Endless(ip)], true, Seconds(50));
    var longest1 := RenewedForEver(db1, client, [Endless(ip)], Seconds(50), 1);
    var p := Prospect(Active, Some(Seconds(100)), After(Seconds(50), longest));
    if FiresAt(p, nows, 0) {
      ReadAfter(requests, clock, Server(db2, 2), db2.timers, nows, p, n);
      AgainIs(n, ip);
    }
    TwoPasses(p, After(clock(n), Remaining(Endless(ip))));
  }

  lemma ReadAfter(requests: nat -> Request, clock: Clock, s: Server, tl: TimerList<Owner>, nows: seq<Time>, p: Prospect,
                  n: nat)
    requires Behaves(OnRequest(requests, clock)) && Behaves(OnExpiry(clock)) && WellFormed(tl) && nows != []
    requires ReadThen(requests, clock, s, tl, nows, p, n) && FiresAt(p, nows, 0)
    ensures s.ticks <= n
  {
    hide Behaves, OnRequest, OnExpiry, WellFormed, TicksAfter, FiresAt;
    TicksOn(requests, clock, s, tl, nows, 0);
  }

  lemma AgainIs(n: nat, ip: Octets)
    requires n >= 2
    ensures After(Readings()(n), Remaining(Endless(ip))) == Seconds(100)
  {
  }

  lemma ShortIsSound(client: Client, ip: Octets)
    ensures var db := ShortGranted(client, ip);
            && Inv(db) && client in db.bindingTable && 1 in db.leases && db.leases[1].binding == db.bindingTable[client]
            && KeyOf(db.leases[1].addr) == KeyOf(Endless(ip)) && ProspectOf(db, 1).own == Some(Seconds(100))
  {
    hide Inv, AddBinding, Standing, Grants, Holder;
    StartInv();
    StartsEmpty(client);
    GrantedIs(client, ip);
    AddExactly(NewDb(), client, [Short(ip)], Seconds(0));
  }

  lemma StartsEmpty(client: Client)
    ensures Whole(Server(NewDb(), 0), NewList()) == NewDb() && client !in NewDb().bindingTable
  {
  }

  lemma OneEntry(a: Addr)
    requires Good(a) && Infinite(a)
    ensures LastFor([a], KeyOf(a)) == Some(a) && ForEver([a], KeyOf(a))
  {
    assert [a][1..] == [];
  }
}
