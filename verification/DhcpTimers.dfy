/** The timer list of the DHCPv6 programs: one pass fires what is due, unlinks what is marked and
    says how long to sleep. Callbacks may add, set and mark timers while the pass goes on. */
module DhcpTimers {
  import opened Bytes

  // ---------------------------------------------------------------------------
  // Time
  // ---------------------------------------------------------------------------

  datatype Time = Time(sec: int, usec: int)

  const MILLION := 1000000

  // No deadline. Its microseconds are out of range, so no sum of times equals it.
  const TM_MAX := Time(0x7fffffff, 0x7fffffff)

  predicate Lt(a: Time, b: Time) {
    a.sec < b.sec || (a.sec == b.sec && a.usec < b.usec)
  }

  predicate Leq(a: Time, b: Time) {
    a.sec < b.sec || (a.sec == b.sec && a.usec <= b.usec)
  }

  function TimeAdd(a: Time, b: Time): Time {
    var l := a.usec + b.usec;
    if l < MILLION then Time(a.sec + b.sec, l) else Time(a.sec + b.sec + 1, l - MILLION)
  }

  // Meant for a >= b.
  function TimeSub(a: Time, b: Time): Time {
    var l := a.usec - b.usec;
    if l >= 0 then Time(a.sec - b.sec, l) else Time(a.sec - b.sec - 1, MILLION + l)
  }

  predicate Normal(t: Time) {
    0 <= t.usec < MILLION
  }

  function Micros(t: Time): int {
    t.sec * MILLION + t.usec
  }

  lemma AddIsSum(a: Time, b: Time)
    requires Normal(a) && Normal(b)
    ensures Normal(TimeAdd(a, b)) && Micros(TimeAdd(a, b)) == Micros(a) + Micros(b)
  {
  }

  lemma SubIsDifference(a: Time, b: Time)
    requires Normal(a) && Normal(b)
    ensures Normal(TimeSub(a, b)) && Micros(TimeSub(a, b)) == Micros(a) - Micros(b)
    ensures TimeAdd(b, TimeSub(a, b)) == a
  {
  }

  lemma OrderIsNumeric(a: Time, b: Time)
    requires Normal(a) && Normal(b)
    ensures Lt(a, b) <==> Micros(a) < Micros(b)
    ensures Leq(a, b) <==> Micros(a) <= Micros(b)
  {
  }

  // ---------------------------------------------------------------------------
  // The list
  // ---------------------------------------------------------------------------

  // Timers are named by numbers that are not used again. order is the linked list.
  datatype Timer<O> = Timer(due: Time, marked: bool, owner: O)

  datatype TimerList<O> = TimerList(order: seq<nat>, recs: map<nat, Timer<O>>, sentinel: Time, next: nat)

  function NewList<O>(): TimerList<O> {
    TimerList([], map[], TM_MAX, 0)
  }

  function AddTimer<O>(tl: TimerList<O>, owner: O): TimerList<O> {
    tl.(order := [tl.next] + tl.order, recs := tl.recs[tl.next := Timer(TM_MAX, false, owner)], next := tl.next + 1)
  }

  // The deadline is what the clock says plus the interval; a mark stays.
  function SetTimer<O>(tl: TimerList<O>, id: nat, due: Time): TimerList<O> {
    if id !in tl.recs then tl
    else tl.(recs := tl.recs[id := tl.recs[id].(due := due)],
             sentinel := if Lt(due, tl.sentinel) then due else tl.sentinel)
  }

  function RemoveTimer<O>(tl: TimerList<O>, id: nat): TimerList<O> {
    if id !in tl.recs then tl else tl.(recs := tl.recs[id := tl.recs[id].(marked := true)])
  }

  function Without(s: seq<nat>, id: nat): seq<nat> {
    if s == [] then [] else if s[0] == id then Without(s[1..], id) else [s[0]] + Without(s[1..], id)
  }

  function Unlink<O>(tl: TimerList<O>, id: nat): TimerList<O> {
    tl.(order := Without(tl.order, id), recs := tl.recs - {id})
  }

  ghost predicate Distinct(s: seq<nat>) {
    forall i, j :: 0 <= i < j < |s| ==> s[i] != s[j]
  }

  ghost predicate WellFormed<O>(tl: TimerList<O>) {
    && Distinct(tl.order)
    && (forall id :: id in tl.order <==> id in tl.recs)
    && (forall id :: id in tl.recs ==> id < tl.next)
  }

  // Every time in the list can be computed with.
  ghost predicate Timely<O>(tl: TimerList<O>) {
    && (Normal(tl.sentinel) || tl.sentinel == TM_MAX)
    && (forall id :: id in tl.recs ==> Normal(tl.recs[id].due) || tl.recs[id].due == TM_MAX)
  }

  // ---------------------------------------------------------------------------
  // What a callback may do
  // ---------------------------------------------------------------------------

  // New timers go to the front; none leaves; marks stay; a deadline that moved is covered by the
  // sentinel.
  ghost predicate Evolves<O>(a: TimerList<O>, b: TimerList<O>) {
    && (WellFormed(a) ==> WellFormed(b))
    && (Timely(a) ==> Timely(b))
    && a.next <= b.next
    && (forall id :: id in a.recs ==>
          id in b.recs && (a.recs[id].marked ==> b.recs[id].marked) && b.recs[id].owner == a.recs[id].owner)
    && (forall id :: id in b.recs && id !in a.recs ==> id >= a.next)
    && Leq(b.sentinel, a.sentinel)
    && (forall id :: id in b.recs ==>
          (id in a.recs && b.recs[id].due == a.recs[id].due) || Leq(b.sentinel, b.recs[id].due)
              || b.recs[id].due == TM_MAX)
  }

  lemma EvolvesItself<O>(a: TimerList<O>)
    ensures Evolves(a, a)
  {
  }

  lemma EvolvesOn<O>(a: TimerList<O>, b: TimerList<O>, c: TimerList<O>)
    requires Evolves(a, b) && Evolves(b, c)
    ensures Evolves(a, c)
  {
    hide WellFormed, Timely;
  }

  lemma DistinctCons(x: nat, s: seq<nat>)
    requires x !in s && Distinct(s)
    ensures Distinct([x] + s)
  {
  }

  lemma AddEvolves<O>(tl: TimerList<O>, owner: O)
    requires WellFormed(tl)
    ensures Evolves(tl, AddTimer(tl, owner))
  {
    DistinctCons(tl.next, tl.order);
    hide Distinct;
  }

  lemma SetEvolves<O>(tl: TimerList<O>, id: nat, due: Time)
    requires Normal(due)
    ensures Evolves(tl, SetTimer(tl, id, due))
  {
  }

  lemma RemoveEvolves<O>(tl: TimerList<O>, id: nat)
    ensures Evolves(tl, RemoveTimer(tl, id))
  {
  }

  // ---------------------------------------------------------------------------
  // One pass
  // ---------------------------------------------------------------------------

  // A callback gets the state, the list and the timer's name; it answers whether the timer goes on.
  type Callback<!S, !O> = (S, TimerList<O>, nat) -> (S, TimerList<O>, bool)

  ghost predicate Behaves<S(!new), O(!new)>(cb: Callback<S, O>) {
    forall st, tl, id :: WellFormed(tl) ==> Evolves(tl, cb(st, tl, id).1)
  }

  datatype Event = Fired(id: nat, again: bool) | Unlinked(id: nat)

  datatype Passed<S, O> = Passed(st: S, tl: TimerList<O>, log: seq<Event>)

  // The timers of rest are still to be visited, in the order the list had when the pass began.
  ghost predicate Pending<O>(tl: TimerList<O>, rest: seq<nat>) {
    WellFormed(tl) && Distinct(rest) && forall i :: 0 <= i < |rest| ==> rest[i] in tl.recs
  }

  function Cover<O>(tl: TimerList<O>, id: nat): TimerList<O>
    requires id in tl.recs
  {
    if Lt(tl.recs[id].due, tl.sentinel) then tl.(sentinel := tl.recs[id].due) else tl
  }

  // One timer: the state and list after it, and what happened.
  function Visit<S(!new), O(!new)>(cb: Callback<S, O>, st: S, tl: TimerList<O>, id: nat, now: Time): Passed<S, O>
    requires Behaves(cb) && WellFormed(tl) && id in tl.recs
  {
    var timer := tl.recs[id];
    if timer.marked then Passed(st, Unlink(tl, id), [Unlinked(id)])
    else if Leq(timer.due, now) then
      var (st1, tl1, again) := cb(st, tl, id);
      assert Evolves(tl, tl1);
      Passed(st1, if again then Cover(tl1, id) else tl1, [Fired(id, again)])
    else Passed(st, Cover(tl, id), [])
  }

  function Pass<S(!new), O(!new)>(cb: Callback<S, O>, st: S, tl: TimerList<O>, rest: seq<nat>, now: Time): Passed<S, O>
    requires Behaves(cb) && Pending(tl, rest)
    decreases |rest|
  {
    if rest == [] then Passed(st, tl, [])
    else
      VisitKeepsPending(cb, st, tl, rest, now);
      var v := Visit(cb, st, tl, rest[0], now);
      var p := Pass(cb, v.st, v.tl, rest[1..], now);
      Passed(p.st, p.tl, v.log + p.log)
  }

  function Check<S(!new), O(!new)>(cb: Callback<S, O>, st: S, tl: TimerList<O>, now: Time): Passed<S, O>
    requires Behaves(cb) && WellFormed(tl)
  {
    Pass(cb, st, tl.(sentinel := TM_MAX), tl.order, now)
  }

  // How long to sleep; None is for ever.
  function Rest(sentinel: Time, now: Time): (wait: Option<Time>) {
    if sentinel == TM_MAX then None
    else if Lt(sentinel, now) then Some(Time(0, 0))
    else Some(TimeSub(sentinel, now))
  }

  lemma {:induction false} WithoutGives(s: seq<nat>, id: nat)
    ensures forall x :: x in Without(s, id) <==> x in s && x != id
    ensures Distinct(s) ==> Distinct(Without(s, id))
  {
    if s != [] {
      WithoutGives(s[1..], id);
      assert s == [s[0]] + s[1..];
      if Distinct(s) && s[0] != id {
        assert s[0] !in s[1..];
        DistinctCons(s[0], Without(s[1..], id));
      }
    }
  }

  lemma UnlinkKeeps<O>(tl: TimerList<O>, id: nat)
    ensures WellFormed(tl) ==> WellFormed(Unlink(tl, id))
    ensures Timely(tl) ==> Timely(Unlink(tl, id))
  {
    WithoutGives(tl.order, id);
    hide Without;
  }

  lemma VisitKeepsPending<S(!new), O(!new)>(cb: Callback<S, O>, st: S, tl: TimerList<O>, rest: seq<nat>, now: Time)
    requires Behaves(cb) && Pending(tl, rest) && rest != []
    ensures Pending(Visit(cb, st, tl, rest[0], now).tl, rest[1..])
  {
    UnlinkKeeps(tl, rest[0]);
    hide Without;
    assert Evolves(tl, cb(st, tl, rest[0]).1);
  }

  // ---------------------------------------------------------------------------
  // The wait is never too long
  // ---------------------------------------------------------------------------

  // Timers whose callback answered that they do not go on.
  function Quiet(log: seq<Event>): set<nat> {
    if log == [] then {} else (if log[0].Fired? && !log[0].again then {log[0].id} else {}) + Quiet(log[1..])
  }

  lemma {:induction false} QuietJoins(a: seq<Event>, b: seq<Event>)
    ensures Quiet(a + b) == Quiet(a) + Quiet(b)
  {
    if a == [] {
      assert a + b == b;
    } else {
      QuietJoins(a[1..], b);
      assert (a + b)[1..] == a[1..] + b;
    }
  }

  // No unmarked timer outside rest and quiet is due before the sentinel.
  ghost predicate Covered<O>(tl: TimerList<O>, rest: seq<nat>, quiet: set<nat>) {
    forall id :: id in tl.recs && !tl.recs[id].marked && id !in rest && id !in quiet
      ==> Leq(tl.sentinel, tl.recs[id].due) || tl.recs[id].due == TM_MAX
  }

  lemma VisitCovers<S(!new),
    O(!new)>(cb: Callback<S, O>, st: S, tl: TimerList<O>, rest: seq<nat>, now: Time, quiet: set<nat>)
    requires Behaves(cb) && Pending(tl, rest) && rest != [] && Covered(tl, rest, quiet)
    ensures var v := Visit(cb, st, tl, rest[0], now); Covered(v.tl, rest[1..], quiet + Quiet(v.log))
  {
    var id := rest[0];
    assert Evolves(tl, cb(st, tl, id).1);
    assert Quiet([Fired(id, false)]) == {id} + Quiet([]);
    assert forall x :: x in rest ==> x == id || x in rest[1..];
    hide Without, WellFormed, Distinct, Quiet;
  }

  lemma {:induction false} PassCovers<S(!new),
    O(!new)>(cb: Callback<S, O>, st: S, tl: TimerList<O>, rest: seq<nat>, now: Time, quiet: set<nat>)
    requires Behaves(cb) && Pending(tl, rest) && Covered(tl, rest, quiet)
    ensures var p := Pass(cb, st, tl, rest, now); Covered(p.tl, [], quiet + Quiet(p.log))
    decreases |rest|
  {
    hide Visit, Covered, Behaves, Quiet, WellFormed;
    if rest == [] {
      QuietNone();
      assert quiet + {} == quiet;
    } else {
      VisitKeepsPending(cb, st, tl, rest, now);
      VisitCovers(cb, st, tl, rest, now, quiet);
      var v := Visit(cb, st, tl, rest[0], now);
      PassCovers(cb, v.st, v.tl, rest[1..], now, quiet + Quiet(v.log));
      var p := Pass(cb, v.st, v.tl, rest[1..], now);
      QuietJoins(v.log, p.log);
      assert quiet + Quiet(v.log) + Quiet(p.log) == quiet + (Quiet(v.log) + Quiet(p.log));
    }
  }

  lemma QuietNone()
    ensures Quiet([]) == {}
  {
  }

  lemma VisitTimely<S(!new), O(!new)>(cb: Callback<S, O>, st: S, tl: TimerList<O>, id: nat, now: Time)
    requires Behaves(cb) && WellFormed(tl) && id in tl.recs && Timely(tl)
    ensures Timely(Visit(cb, st, tl, id, now).tl)
  {
    UnlinkKeeps(tl, id);
    assert Evolves(tl, cb(st, tl, id).1);
    hide WellFormed, Distinct, Without;
  }

  lemma {:induction false} PassTimely<S(!new),
    O(!new)>(cb: Callback<S, O>, st: S, tl: TimerList<O>, rest: seq<nat>, now: Time)
    requires Behaves(cb) && Pending(tl, rest) && Timely(tl)
    ensures var p := Pass(cb, st, tl, rest, now); Timely(p.tl) && WellFormed(p.tl)
    decreases |rest|
  {
    hide Visit, Behaves, Timely;
    if rest != [] {
      VisitKeepsPending(cb, st, tl, rest, now);
      VisitTimely(cb, st, tl, rest[0], now);
      var v := Visit(cb, st, tl, rest[0], now);
      PassTimely(cb, v.st, v.tl, rest[1..], now);
    }
  }

  // A deadline that is not the one at the start is covered by the sentinel.
  ghost predicate Moved<O>(a: TimerList<O>, b: TimerList<O>) {
    && Leq(b.sentinel, a.sentinel)
    && (forall id :: id in b.recs ==>
          (id in a.recs && b.recs[id].due == a.recs[id].due) || Leq(b.sentinel, b.recs[id].due)
              || b.recs[id].due == TM_MAX)
  }

  lemma MovedOn<O>(a: TimerList<O>, b: TimerList<O>, c: TimerList<O>)
    ensures Moved(a, a)
    ensures Moved(a, b) && Moved(b, c) ==> Moved(a, c)
  {
  }

  lemma VisitMoves<S(!new), O(!new)>(cb: Callback<S, O>, st: S, tl: TimerList<O>, id: nat, now: Time)
    requires Behaves(cb) && WellFormed(tl) && id in tl.recs
    ensures Moved(tl, Visit(cb, st, tl, id, now).tl)
  {
    hide WellFormed, Timely, Without;
    assert Evolves(tl, cb(st, tl, id).1);
  }

  lemma {:induction false} PassMoves<S(!new),
    O(!new)>(cb: Callback<S, O>, st: S, tl: TimerList<O>, rest: seq<nat>, now: Time)
    requires Behaves(cb) && Pending(tl, rest)
    ensures Moved(tl, Pass(cb, st, tl, rest, now).tl)
    decreases |rest|
  {
    hide Visit, Behaves, WellFormed, Moved;
    MovedOn(tl, tl, tl);
    if rest != [] {
      VisitKeepsPending(cb, st, tl, rest, now);
      VisitMoves(cb, st, tl, rest[0], now);
      var v := Visit(cb, st, tl, rest[0], now);
      PassMoves(cb, v.st, v.tl, rest[1..], now);
      MovedOn(tl, v.tl, Pass(cb, v.st, v.tl, rest[1..], now).tl);
    }
  }

  // Unmarked, and not stopped by its own callback for good: one that stopped counts again once
  // anything has given it another deadline.
  ghost predicate Waiting<O>(before: TimerList<O>, after: TimerList<O>, log: seq<Event>, id: nat) {
    && id in after.recs && !after.recs[id].marked
    && (id in Quiet(log) && id in before.recs ==> after.recs[id].due != before.recs[id].due)
  }

  // The wait, from now on, ends no later than the deadline; an endless one is for none.
  predicate InTime(wait: Option<Time>, now: Time, due: Time) {
    if wait.None? then due == TM_MAX || !Lt(due, TM_MAX)
    else wait.value == Time(0, 0) || Leq(TimeAdd(now, wait.value), due) || due == TM_MAX
  }

  // After a pass with callbacks that add, set and mark timers at will: the wait ends no later
  // than the deadline of any timer that is waiting, and it is endless only if none of them has a
  // deadline.
  lemma NeverOversleeps<S(!new), O(!new)>(cb: Callback<S, O>, st: S, tl: TimerList<O>, now: Time, id: nat)
    requires Behaves(cb) && WellFormed(tl) && Timely(tl) && Normal(now)
    requires var p := Check(cb, st, tl, now); Waiting(tl, p.tl, p.log, id)
    ensures var p := Check(cb, st, tl, now);
            InTime(Rest(p.tl.sentinel, now), now, p.tl.recs[id].due)
  {
    hide Pass, Behaves, Covered, Quiet;
    var start := tl.(sentinel := TM_MAX);
    NoneToCover(start);
    PassTimely(cb, st, start, tl.order, now);
    PassCovers(cb, st, start, tl.order, now, {});
    PassMoves(cb, st, start, tl.order, now);
    var p := Check(cb, st, tl, now);
    assert {} + Quiet(p.log) == Quiet(p.log);
    if id !in Quiet(p.log) {
      CoveredTimer(p.tl, Quiet(p.log), id);
    }
    if Normal(p.tl.sentinel) {
      SubIsDifference(p.tl.sentinel, now);
    }
  }

  lemma NoneOverslept<S(!new), O(!new)>(cb: Callback<S, O>, st: S, tl: TimerList<O>, now: Time)
    requires Behaves(cb) && WellFormed(tl)
    ensures var p := Check(cb, st, tl, now);
            Timely(tl) && Normal(now) ==>
              forall id :: Waiting(tl, p.tl, p.log, id) ==> InTime(Rest(p.tl.sentinel, now), now, p.tl.recs[id].due)
  {
    hide Behaves, WellFormed, Timely, Check, InTime;
    var p := Check(cb, st, tl, now);
    if Timely(tl) && Normal(now) {
      forall id | Waiting(tl, p.tl, p.log, id) ensures InTime(Rest(p.tl.sentinel, now), now, p.tl.recs[id].due) {
        NeverOversleeps(cb, st, tl, now, id);
      }
    }
  }

  lemma NoneToCover<O>(tl: TimerList<O>)
    requires WellFormed(tl)
    ensures Covered(tl, tl.order, {})
  {
  }

  lemma CoveredTimer<O>(tl: TimerList<O>, quiet: set<nat>, id: nat)
    requires Covered(tl, [], quiet) && id in tl.recs && !tl.recs[id].marked && id !in quiet
    ensures Leq(tl.sentinel, tl.recs[id].due) || tl.recs[id].due == TM_MAX
  {
  }

  // ---------------------------------------------------------------------------
  // A marked timer is finished
  // ---------------------------------------------------------------------------

  // Marked for removal, or already unlinked. A name is not given out twice.
  ghost predicate Finished<O>(tl: TimerList<O>, id: nat) {
    id < tl.next && (id in tl.recs ==> tl.recs[id].marked)
  }

  function Unlinks(log: seq<Event>, id: nat): nat {
    if log == [] then 0 else (if log[0] == Unlinked(id) then 1 else 0) + Unlinks(log[1..], id)
  }

  predicate FiredIn(log: seq<Event>, id: nat) {
    Fired(id, true) in log || Fired(id, false) in log
  }

  lemma {:induction false} UnlinksJoin(a: seq<Event>, b: seq<Event>, id: nat)
    ensures Unlinks(a + b, id) == Unlinks(a, id) + Unlinks(b, id)
  {
    if a == [] {
      assert a + b == b;
    } else {
      UnlinksJoin(a[1..], b, id);
      assert (a + b)[1..] == a[1..] + b;
    }
  }

  lemma VisitLogs<S(!new), O(!new)>(cb: Callback<S, O>, st: S, tl: TimerList<O>, at: nat, now: Time, id: nat)
    requires Behaves(cb) && WellFormed(tl) && at in tl.recs
    ensures var v := Visit(cb, st, tl, at, now);
            && Unlinks(v.log, id) == (if at == id && tl.recs[at].marked then 1 else 0)
            && (FiredIn(v.log, id) ==> at == id && !tl.recs[at].marked && Leq(tl.recs[at].due, now))
            && (at != id || !tl.recs[at].marked ==> (id in tl.recs ==> id in v.tl.recs))
            && (at == id && tl.recs[at].marked ==> id !in v.tl.recs)
            && (Finished(tl, id) ==> Finished(v.tl, id) && (id !in tl.recs ==> id !in v.tl.recs))
  {
    assert Evolves(tl, cb(st, tl, at).1);
    LogOfOne(Unlinked(at), id);
    LogOfOne(Fired(at, true), id);
    LogOfOne(Fired(at, false), id);
    hide WellFormed, Distinct, Without, Timely, Unlinks, FiredIn;
    NoLog(id);
  }

  lemma LogOfOne(e: Event, id: nat)
    ensures Unlinks([e], id) == if e == Unlinked(id) then 1 else 0
    ensures FiredIn([e], id) <==> e == Fired(id, true) || e == Fired(id, false)
  {
    assert Unlinks([e][1..], id) == 0;
  }

  lemma NoLog(id: nat)
    ensures Unlinks([], id) == 0 && !FiredIn([], id)
  {
  }

  lemma FiredJoin(a: seq<Event>, b: seq<Event>, id: nat)
    ensures FiredIn(a + b, id) <==> FiredIn(a, id) || FiredIn(b, id)
  {
  }

  // In one pass: a timer is unlinked at most once, and then it is gone; one that is finished when
  // its turn comes does not fire; one that was finished before the pass is unlinked in it.
  lemma {:induction false} PassFinishes<S(!new),
    O(!new)>(cb: Callback<S, O>, st: S, tl: TimerList<O>, rest: seq<nat>, now: Time, id: nat)
    requires Behaves(cb) && Pending(tl, rest)
    ensures var p := Pass(cb, st, tl, rest, now);
            && Unlinks(p.log, id) <= 1
            && (Unlinks(p.log, id) == 1 ==> id in rest && id !in p.tl.recs)
            && (id in tl.recs && id in p.tl.recs ==> Unlinks(p.log, id) == 0)
            && (id in tl.recs && id !in p.tl.recs ==> Unlinks(p.log, id) == 1)
            && (FiredIn(p.log, id) ==> id in rest && !Finished(tl, id))
            && (Finished(tl, id) ==> Finished(p.tl, id) && (id !in tl.recs || id in rest ==> id !in p.tl.recs))
    decreases |rest|
  {
    hide Visit, Behaves, WellFormed, Unlinks, FiredIn, Finished;
    if rest == [] {
      NoLog(id);
      FinishedMeans(tl, id);
    } else {
      VisitKeepsPending(cb, st, tl, rest, now);
      VisitLogs(cb, st, tl, rest[0], now, id);
      var v := Visit(cb, st, tl, rest[0], now);
      PassFinishes(cb, v.st, v.tl, rest[1..], now, id);
      var p := Pass(cb, v.st, v.tl, rest[1..], now);
      UnlinksJoin(v.log, p.log, id);
      FiredJoin(v.log, p.log, id);
      FinishedMeans(tl, id);
      FinishedMeans(v.tl, id);
      RestIsOrdered(rest, id);
    }
  }

  lemma FinishedMeans<O>(tl: TimerList<O>, id: nat)
    ensures Finished(tl, id) && id in tl.recs ==> tl.recs[id].marked
    ensures id in tl.recs && tl.recs[id].marked && WellFormed(tl) ==> Finished(tl, id)
  {
  }

  lemma RestIsOrdered(rest: seq<nat>, id: nat)
    requires rest != [] && Distinct(rest)
    ensures id in rest <==> id == rest[0] || id in rest[1..]
    ensures rest[0] !in rest[1..]
  {
  }

  // ---------------------------------------------------------------------------
  // Whole runs
  // ---------------------------------------------------------------------------

  // Between passes the program handles messages, which touch timers in the same ways.
  datatype Move = Handle(n: nat) | PassAt(now: Time)

  function Step<S(!new),
    O(!new)>(handle: Callback<S, O>, cb: Callback<S, O>, st: S, tl: TimerList<O>, move: Move): Passed<S, O>
    requires Behaves(handle) && Behaves(cb) && WellFormed(tl)
  {
    match move
    case Handle(n) =>
      var (st1, tl1, _) := handle(st, tl, n);
      Passed(st1, tl1, [])
    case PassAt(now) => Check(cb, st, tl, now)
  }

  function Run<S(!new),
    O(!new)>(handle: Callback<S, O>, cb: Callback<S, O>, st: S, tl: TimerList<O>, moves: seq<Move>): Passed<S, O>
    requires Behaves(handle) && Behaves(cb) && WellFormed(tl)
    decreases |moves|
  {
    if moves == [] then Passed(st, tl, [])
    else
      StepLogs(handle, cb, st, tl, moves[0], 0);
      var v := Step(handle, cb, st, tl, moves[0]);
      var p := Run(handle, cb, v.st, v.tl, moves[1..]);
      Passed(p.st, p.tl, v.log + p.log)
  }

  lemma {:induction false} PassWellFormed<S(!new),
    O(!new)>(cb: Callback<S, O>, st: S, tl: TimerList<O>, rest: seq<nat>, now: Time)
    requires Behaves(cb) && Pending(tl, rest)
    ensures WellFormed(Pass(cb, st, tl, rest, now).tl)
    decreases |rest|
  {
    hide Visit, Behaves, WellFormed;
    if rest != [] {
      VisitKeepsPending(cb, st, tl, rest, now);
      var v := Visit(cb, st, tl, rest[0], now);
      PassWellFormed(cb, v.st, v.tl, rest[1..], now);
    }
  }

  lemma StepLogs<S(!new),
    O(!new)>(handle: Callback<S, O>, cb: Callback<S, O>, st: S, tl: TimerList<O>, move: Move, id: nat)
    requires Behaves(handle) && Behaves(cb) && WellFormed(tl)
    ensures var v := Step(handle, cb, st, tl, move);
            && WellFormed(v.tl)
            && (Finished(tl, id) ==> Finished(v.tl, id) && !FiredIn(v.log, id))
            && Unlinks(v.log, id) <= 1
            && (id in tl.recs && id !in v.tl.recs ==> Unlinks(v.log, id) == 1)
            && (Unlinks(v.log, id) == 1 ==> id in tl.recs && id !in v.tl.recs)
            && (Finished(tl, id) && id !in tl.recs ==> id !in v.tl.recs)
  {
    NoLog(id);
    match move
    case Handle(n) =>
      assert Evolves(tl, handle(st, tl, n).1);
      hide WellFormed, Timely, Unlinks, FiredIn;
    case PassAt(now) =>
      var start := tl.(sentinel := TM_MAX);
      PassWellFormed(cb, st, start, tl.order, now);
      PassFinishes(cb, st, start, tl.order, now, id);
      hide Pass, Unlinks, FiredIn;
  }

  // Over any run of messages and passes: a timer once marked never fires again and is unlinked
  // at most once; once unlinked it stays away.
  lemma {:induction false} MarkedNeverFires<S(!new),
    O(!new)>(handle: Callback<S, O>, cb: Callback<S, O>, st: S, tl: TimerList<O>, moves: seq<Move>, id: nat)
    requires Behaves(handle) && Behaves(cb) && WellFormed(tl) && Finished(tl, id)
    ensures var p := Run(handle, cb, st, tl, moves);
            && !FiredIn(p.log, id) && Finished(p.tl, id)
            && Unlinks(p.log, id) == if id in tl.recs && id !in p.tl.recs then 1 else 0
    decreases |moves|
  {
    hide Step, Behaves, WellFormed, Unlinks, FiredIn, Finished;
    NoLog(id);
    if moves != [] {
      StepLogs(handle, cb, st, tl, moves[0], id);
      var v := Step(handle, cb, st, tl, moves[0]);
      MarkedNeverFires(handle, cb, v.st, v.tl, moves[1..], id);
      var p := Run(handle, cb, v.st, v.tl, moves[1..]);
      UnlinksJoin(v.log, p.log, id);
      FiredJoin(v.log, p.log, id);
      FinishedGone(handle, cb, v.st, v.tl, moves[1..], id);
    }
  }

  lemma {:induction false} FinishedGone<S(!new),
    O(!new)>(handle: Callback<S, O>, cb: Callback<S, O>, st: S, tl: TimerList<O>, moves: seq<Move>, id: nat)
    requires Behaves(handle) && Behaves(cb) && WellFormed(tl) && Finished(tl, id)
    ensures id !in tl.recs ==> id !in Run(handle, cb, st, tl, moves).tl.recs
    decreases |moves|
  {
    hide Step, Behaves, WellFormed, Unlinks, FiredIn, Finished;
    if moves != [] {
      StepLogs(handle, cb, st, tl, moves[0], id);
      var v := Step(handle, cb, st, tl, moves[0]);
      FinishedGone(handle, cb, v.st, v.tl, moves[1..], id);
    }
  }

  // No run of messages and passes fires the timer.
  ghost predicate Silent<S(!new), O(!new)>(tl: TimerList<O>, id: nat)
    requires WellFormed(tl)
  {
    forall handle: Callback<S, O>, cb: Callback<S, O>, st: S, moves: seq<Move> :: Behaves(handle) && Behaves(cb)
      ==> !FiredIn(Run(handle, cb, st, tl, moves).log, id)
  }

  lemma FinishedIsSilent<S(!new), O(!new)>(tl: TimerList<O>, id: nat)
    requires WellFormed(tl) && Finished(tl, id)
    ensures Silent<S, O>(tl, id)
  {
    hide Behaves, Run, FiredIn, WellFormed;
    forall handle: Callback<S, O>, cb: Callback<S, O>, st: S, moves: seq<Move> | Behaves(handle) && Behaves(cb)
      ensures !FiredIn(Run(handle, cb, st, tl, moves).log, id)
    {
      MarkedNeverFires(handle, cb, st, tl, moves, id);
    }
  }

  // ---------------------------------------------------------------------------
  // The list in place
  // ---------------------------------------------------------------------------

  class TimerQueue<S(!new), O(!new)> {
    var order: seq<nat>
    var recs: map<nat, Timer<O>>
    var sentinel: Time
    var next: nat

    function List(): TimerList<O>
      reads this
    {
      TimerList(order, recs, sentinel, next)
    }

    ghost predicate Valid()
      reads this
    {
      WellFormed(List()) && Timely(List())
    }

    constructor ()
      ensures Valid() && List() == NewList()
    {
      order, recs, sentinel, next := [], map[], TM_MAX, 0;
    }

    // A name never used before, at the head of the list and without a deadline.
    method Add(owner: O) returns (id: nat)
      requires Valid()
      modifies this
      ensures Valid() && List() == AddTimer(old(List()), owner)
      ensures id == old(next) && id !in old(recs) && recs == old(recs)[id := Timer(TM_MAX, false, owner)]
      ensures order == [id] + old(order) && sentinel == old(sentinel)
      ensures forall other :: Finished(old(List()), other) ==> Finished(List(), other) && other != id
    {
      id := next;
      ghost var tl := List();
      recs := recs[id := Timer(TM_MAX, false, owner)];
      order := [id] + order;
      next := next + 1;
      AddEvolves(tl, owner);
    }

    // clock is what the clock says now. The timer is due the interval later, and the next pass
    // is no later than that.
    method Set(id: nat, interval: Time, clock: Time)
      requires Valid() && id in recs && Normal(interval) && Normal(clock)
      modifies this`recs, this`sentinel
      ensures Valid() && List() == SetTimer(old(List()), id, TimeAdd(clock, interval))
      ensures id in recs && Micros(recs[id].due) == Micros(clock) + Micros(interval)
      ensures recs[id] == old(recs[id]).(due := recs[id].due) && recs - {id} == old(recs) - {id}
      ensures Leq(sentinel, recs[id].due) && Leq(sentinel, old(sentinel))
    {
      ghost var tl := List();
      var due := TimeAdd(clock, interval);
      recs := recs[id := recs[id].(due := due)];
      if Lt(due, sentinel) {
        sentinel := due;
      }
      AddIsSum(clock, interval);
      SetEvolves(tl, id, due);
    }

    // The timer stays on the list, but whatever happens from now on it does not fire.
    method Remove(id: nat)
      requires Valid() && id in recs
      modifies this`recs
      ensures Valid() && List() == RemoveTimer(old(List()), id)
      ensures recs == old(recs)[id := old(recs[id]).(marked := true)]
      ensures Silent<S, O>(List(), id)
    {
      ghost var tl := List();
      recs := recs[id := recs[id].(marked := true)];
      RemoveEvolves(tl, id);
      FinishedIsSilent<S, O>(List(), id);
    }

    // A marked timer leaves the list for good.
    method Drop(id: nat)
      requires Valid() && id in recs && recs[id].marked
      modifies this`order, this`recs
      ensures Valid() && List() == Unlink(old(List()), id)
      ensures id !in recs && id !in order && Finished(List(), id)
    {
      UnlinkKeeps(List(), id);
      WithoutGives(order, id);
      order, recs := Without(order, id), recs - {id};
    }

    // The next pass comes no later than the timer is due.
    method Await(id: nat)
      requires Valid() && id in recs
      modifies this`sentinel
      ensures Valid() && List() == Cover(old(List()), id)
      ensures Leq(sentinel, recs[id].due) && Leq(sentinel, old(sentinel))
    {
      if Lt(recs[id].due, sentinel) {
        sentinel := recs[id].due;
      }
    }

    // Nothing is awaited yet.
    method Restart()
      requires Valid()
      modifies this`sentinel
      ensures Valid() && List() == old(List()).(sentinel := TM_MAX)
    {
      sentinel := TM_MAX;
    }

    // One pass, with the state the callbacks work on and what the clock said at the start.
    method CheckTimers(cb: Callback<S, O>, st: S, now: Time) returns (st1: S, wait: Option<Time>, ghost log: seq<Event>)
      requires Behaves(cb) && WellFormed(List())
      modifies this
      ensures var p := Check(cb, st, old(List()), now);
              st1 == p.st && List() == p.tl && log == p.log && wait == Rest(p.tl.sentinel, now)
      ensures Timely(old(List())) && Normal(now) ==>
                forall id :: Waiting(old(List()), List(), log, id) ==> InTime(wait, now, recs[id].due)
    {
      ghost var was := List();
      ghost var start := List().(sentinel := TM_MAX);
      sentinel := TM_MAX;
      st1, log := st, [];
      var i, visit := 0, order;
      assert visit[0..] == visit;
      hide Behaves, WellFormed, Visit;
      while i < |visit|
        invariant 0 <= i <= |visit|
        invariant Pending(List(), visit[i..])
        invariant Continues(cb, Pass(cb, st, start, visit, now), st1, List(), visit[i..], now, log)
      {
        var id := visit[i];
        VisitKeepsPending(cb, st1, List(), visit[i..], now);
        ghost var v := Visit(cb, st1, List(), id, now);
        ContinuesOn(cb, Pass(cb, st, start, visit, now), st1, List(), visit[i..], now, log);
        assert visit[i..][1..] == visit[i + 1..];
        log := log + v.log;
        st1 := VisitTimer(cb, st1, id, now);
        i := i + 1;
      }
      assert log + [] == log;
      wait := Rest(sentinel, now);
      NoneOverslept(cb, st, was, now);
    }

    method VisitTimer(cb: Callback<S, O>, st: S, id: nat, now: Time) returns (st1: S)
      requires Behaves(cb) && WellFormed(List()) && id in recs
      modifies this
      ensures var v := Visit(cb, st, old(List()), id, now); st1 == v.st && List() == v.tl
    {
      st1 := st;
      assert Evolves(List(), cb(st, List(), id).1);
      if recs[id].marked {
        order, recs := Without(order, id), recs - {id};
        return;
      }
      if Leq(recs[id].due, now) {
        var (s, tl, again) := cb(st, List(), id);
        st1, order, recs, sentinel, next := s, tl.order, tl.recs, tl.sentinel, tl.next;
        if !again {
          return;
        }
      }
      if Lt(recs[id].due, sentinel) {
        sentinel := recs[id].due;
      }
    }
  }

  // What is left of a pass leads to its end.
  ghost predicate Continues<S(!new),
    O(!new)>(cb: Callback<S, O>, end: Passed<S, O>, st: S, tl: TimerList<O>, rest: seq<nat>, now: Time, log: seq<Event>)
    requires Behaves(cb) && Pending(tl, rest)
  {
    var p := Pass(cb, st, tl, rest, now);
    end == Passed(p.st, p.tl, log + p.log)
  }

  lemma ContinuesOn<S(!new),
    O(!new)>(cb: Callback<S, O>, end: Passed<S, O>, st: S, tl: TimerList<O>, rest: seq<nat>, now: Time, log: seq<Event>)
    requires Behaves(cb) && Pending(tl, rest) && rest != [] && Continues(cb, end, st, tl, rest, now, log)
    ensures var v := Visit(cb, st, tl, rest[0], now);
            Pending(v.tl, rest[1..]) && Continues(cb, end, v.st, v.tl, rest[1..], now, log + v.log)
  {
    hide Visit, Behaves, WellFormed;
    VisitKeepsPending(cb, st, tl, rest, now);
    var v := Visit(cb, st, tl, rest[0], now);
    var p := Pass(cb, v.st, v.tl, rest[1..], now);
    assert log + (v.log + p.log) == log + v.log + p.log;
  }
}
