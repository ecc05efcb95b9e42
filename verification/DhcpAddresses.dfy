/** Handing out addresses of a segment: a cursor walks the range, wraps at its end and skips what
    is in use. Addresses are 16 bytes, compared and counted up byte by byte. */
module DhcpAddresses {
  import opened Bytes

  const SIZE := 16

  const UNSPECIFIED: Octets := Repeat(0, SIZE)

  // ---------------------------------------------------------------------------
  // Comparison
  // ---------------------------------------------------------------------------

  lemma {:induction false} NumberSplit(a: Octets, b: Octets)
    ensures Number(a + b) == Number(a) * Power(|b|) + Number(b)
  {
    if b == [] {
      assert a + b == a;
    } else {
      var front, last := b[..|b| - 1], b[|b| - 1];
      NumberSplit(a, front);
      assert (a + b)[..|a + b| - 1] == a + front;
      assert 256 * (Number(a) * Power(|front|)) == Number(a) * (256 * Power(|front|));
    }
  }

  // The first byte that differs decides.
  lemma FirstDifference(a: Octets, b: Octets, i: nat)
    requires |a| == |b| && i < |a| && a[..i] == b[..i] && a[i] < b[i]
    ensures Number(a) < Number(b)
  {
    hide Number, Power;
    var n, m, p := Number(a[..i]), |a| - i - 1, Power(|a| - i - 1);
    TailBound(a, i);
    TailBound(b, i);
    assert (256 * n + a[i] + 1) * p <= (256 * n + b[i]) * p;
  }

  lemma TailBound(a: Octets, i: nat)
    requires i < |a|
    ensures var n, p := Number(a[..i]), Power(|a| - i - 1);
            (256 * n + a[i]) * p <= Number(a) < (256 * n + a[i] + 1) * p
  {
    hide Number, Power;
    var head, tail := a[..i + 1], a[i + 1..];
    assert a == head + tail;
    NumberSplit(head, tail);
    NumberBound(tail);
    LastDigit(a, i);
    Distribute(Number(head), Power(|tail|));
  }

  lemma LastDigit(a: Octets, i: nat)
    requires i < |a|
    ensures Number(a[..i + 1]) == 256 * Number(a[..i]) + a[i]
  {
    assert a[..i + 1][..i] == a[..i];
  }

  lemma Distribute(n: nat, p: nat)
    ensures (n + 1) * p == n * p + p
  {
  }

  // Byte by byte from the front; the result has the sign of the numeric difference.
  method Compare(a: Octets, b: Octets) returns (c: int)
    requires |a| == |b|
    ensures c == if Number(a) < Number(b) then -1 else if Number(a) > Number(b) then 1 else 0
  {
    hide Number;
    var i := 0;
    while i < |a|
      invariant 0 <= i <= |a| && a[..i] == b[..i]
    {
      if a[i] < b[i] {
        FirstDifference(a, b, i);
        return -1;
      } else if a[i] > b[i] {
        FirstDifference(b, a, i);
        return 1;
      }
      i := i + 1;
    }
    assert a[..i] == a && b[..i] == b;
    return 0;
  }

  // ---------------------------------------------------------------------------
  // The walk
  // ---------------------------------------------------------------------------

  ghost predicate Between(min: Octets, max: Octets, s: Octets) {
    |s| == SIZE && Number(min) <= Number(s) <= Number(max)
  }

  // A segment whose end is not the very last address.
  ghost predicate Segment(min: Octets, max: Octets) {
    |min| == SIZE && |max| == SIZE && Number(min) <= Number(max) && Number(max) + 1 < Power(SIZE)
  }

  function Successor(min: Octets, max: Octets, s: Octets): Octets {
    if Number(Next(s)) > Number(max) then min else Next(s)
  }

  // The first address of n, from s on and around the end, that is not used.
  function Scan(used: Octets -> bool, min: Octets, max: Octets, s: Octets, n: nat): Option<Octets>
    decreases n
  {
    if n == 0 then None
    else if !used(s) then Some(s)
    else Scan(used, min, max, Successor(min, max, s), n - 1)
  }

  function Width(min: Octets, max: Octets): nat {
    if Number(max) >= Number(min) then Number(max) - Number(min) + 1 else 0
  }

  lemma SuccessorIs(min: Octets, max: Octets, s: Octets)
    requires Segment(min, max) && Between(min, max, s)
    ensures Between(min, max, Successor(min, max, s))
    ensures Number(Successor(min, max, s)) == if Number(s) == Number(max) then Number(min) else Number(s) + 1
    ensures Number(Next(s)) == Number(s) + 1
  {
    hide Number, Power, Next;
    NextIsSuccessor(s);
    SmallModulus(Number(s) + 1, Power(SIZE));
  }

  // What is found is in the segment and not used.
  lemma {:induction false} ScanSound(used: Octets -> bool, min: Octets, max: Octets, s: Octets, n: nat)
    requires Segment(min, max) && Between(min, max, s)
    ensures var r := Scan(used, min, max, s, n); r.Some? ==> Between(min, max, r.value) && !used(r.value)
    decreases n
  {
    hide Between, Segment, Successor;
    if n > 0 {
      SuccessorIs(min, max, s);
      ScanSound(used, min, max, Successor(min, max, s), n - 1);
    }
  }

  // If nothing is found short of the end, everything passed is used; a longer walk goes on from
  // the beginning.
  lemma {:induction false} ScanUp(used: Octets -> bool, min: Octets, max: Octets, s: Octets, n: nat, m: nat, t: Octets)
    requires Segment(min, max) && Between(min, max, s) && |t| == SIZE
    requires Number(s) + n == Number(max) + 1
    requires Scan(used, min, max, s, n + m).None?
    ensures Number(s) <= Number(t) <= Number(max) ==> used(t)
    ensures Scan(used, min, max, min, m).None?
    decreases n
  {
    hide Number, Power, Next, Successor;
    SuccessorIs(min, max, s);
    if Number(t) == Number(s) {
      NumberInjective(s, t);
    }
    if n > 1 {
      ScanUp(used, min, max, Successor(min, max, s), n - 1, m, t);
    } else {
      NumberInjective(Successor(min, max, s), min);
    }
  }

  // From the beginning up to, but not including, an address.
  lemma {:induction false} ScanFront(used: Octets -> bool, min: Octets, max: Octets, s: Octets, n: nat, t: Octets)
    requires Segment(min, max) && Between(min, max, s) && |t| == SIZE
    requires Number(s) + n <= Number(max) + 1 && Scan(used, min, max, s, n).None?
    ensures Number(s) <= Number(t) < Number(s) + n ==> used(t)
    decreases n
  {
    hide Number, Power, Next, Successor;
    if n > 0 {
      SuccessorIs(min, max, s);
      if Number(t) == Number(s) {
        NumberInjective(s, t);
      }
      if n > 1 {
        ScanFront(used, min, max, Successor(min, max, s), n - 1, t);
      }
    }
  }

  // A walk of the whole width finds an unused address exactly if the segment has one.
  lemma ScanComplete(used: Octets -> bool, min: Octets, max: Octets, s: Octets)
    requires Segment(min, max) && Between(min, max, s)
    ensures Scan(used, min, max, s, Width(min, max)).None? <==> forall t :: Between(min, max, t) ==> used(t)
  {
    hide Number, Power, Next, Scan;
    ScanSound(used, min, max, s, Width(min, max));
    if Scan(used, min, max, s, Width(min, max)).None? {
      var n, m := Number(max) + 1 - Number(s), Number(s) - Number(min);
      forall t | Between(min, max, t) ensures used(t) {
        ScanUp(used, min, max, s, n, m, t);
        ScanFront(used, min, max, min, m, t);
      }
    }
  }

  // ---------------------------------------------------------------------------
  // The allocator
  // ---------------------------------------------------------------------------

  // One pass of its loop: whether the loop ends, and the cursor and wrap flag after it. An
  // allocator that is back where it started tries the unspecified address instead.
  function Try(used: Octets -> bool, min: Octets, max: Octets, current: Octets, free: Octets, round: bool): (bool,
          Octets, bool) {
    if round && current == free then (!used(UNSPECIFIED), free, round)
    else (!used(free), Successor(min, max, free), round || Number(Next(free)) > Number(max))
  }

  function EndsWithin(used: Octets -> bool, min: Octets, max: Octets, current: Octets, free: Octets, round: bool,
                      n: nat): bool
    decreases n
  {
    n > 0 &&
    var (ends, free1, round1) := Try(used, min, max, current, free, round);
    ends || EndsWithin(used, min, max, current, free1, round1, n - 1)
  }

  // If every address of the segment is in use, and so is the unspecified one, no number of passes
  // is enough.
  lemma {:induction false} NeverEnds(used: Octets -> bool, min: Octets, max: Octets, current: Octets, free: Octets,
                                     round: bool, n: nat)
    requires Segment(min, max) && Between(min, max, free)
    requires used(UNSPECIFIED) && forall t :: Between(min, max, t) ==> used(t)
    ensures !EndsWithin(used, min, max, current, free, round, n)
    decreases n
  {
    hide Number, Power, Next, Successor, Between, Segment;
    if n > 0 {
      SuccessorIs(min, max, free);
      var (_, free1, round1) := Try(used, min, max, current, free, round);
      NeverEnds(used, min, max, current, free1, round1, n - 1);
    }
  }

  // How far a walk from current has come, with left addresses still to try.
  ghost predicate Walking(used: Octets -> bool, min: Octets, max: Octets, current: Octets, free: Octets, round: bool,
                          left: nat) {
    && Between(min, max, current) && Between(min, max, free)
    && Scan(used, min, max, current, Width(min, max)) == Scan(used, min, max, free, left)
    && Number(free) == Number(current) - left + (if round then 0 else Width(min, max))
  }

  lemma WalkStarts(used: Octets -> bool, min: Octets, max: Octets, current: Octets)
    requires Between(min, max, current)
    ensures Walking(used, min, max, current, current, false, Width(min, max))
  {
    hide Number, Scan;
  }

  // The walk is over exactly when the cursor is back after a wrap.
  lemma WalkEnds(used: Octets -> bool, min: Octets, max: Octets, current: Octets, free: Octets, round: bool, left: nat)
    requires Segment(min, max) && Walking(used, min, max, current, free, round, left)
    ensures round && current == free <==> left == 0
    ensures left == 0 ==> Scan(used, min, max, current, Width(min, max)).None?
  {
    hide Number, Power;
    if left == 0 {
      NumberInjective(free, current);
    }
  }

  lemma WalkGoesOn(used: Octets -> bool, min: Octets, max: Octets, current: Octets, free: Octets, round: bool,
                   left: nat)
    requires Segment(min, max) && Walking(used, min, max, current, free, round, left) && left > 0
    ensures !used(free) ==> Scan(used, min, max, current, Width(min, max)) == Some(free)
    ensures var (_, free1, round1) := Try(used, min, max, current, free, round);
            used(free) ==> Walking(used, min, max, current, free1, round1, left - 1)
  {
    WalkEnds(used, min, max, current, free, round, left);
    SuccessorIs(min, max, free);
    hide Number, Power, Next, Successor;
  }

  class Pool {
    const min: Octets
    const max: Octets
    var free: array<byte>

    ghost predicate Valid()
      reads this, free
    {
      free.Length == SIZE && Segment(min, max) && Between(min, max, free[..])
    }

    constructor (min: Octets, max: Octets)
      requires Segment(min, max)
      ensures Valid() && free[..] == min && fresh(free) && this.min == min && this.max == max
    {
      this.min, this.max := min, max;
      free := new byte[SIZE](i requires 0 <= i < SIZE => min[i]);
      new;
      assert free[..] == min;
    }

    // The address at the cursor; the cursor moves on and wraps behind the end.
    method Advance() returns (wrapped: bool)
      requires Valid()
      modifies free
      ensures Valid() && free[..] == Successor(min, max, old(free[..]))
      ensures wrapped == (Number(Next(old(free[..]))) > Number(max))
    {
      hide Number, Power, Next;
      SuccessorIs(min, max, free[..]);
      Increment(free);
      var c := Compare(free[..], max);
      wrapped := c == 1;
      if wrapped {
        var i := 0;
        while i < SIZE
          invariant 0 <= i <= SIZE && free[..i] == min[..i]
        {
          free[i] := min[i];
          i := i + 1;
        }
        assert free[..] == free[..SIZE] && min[..SIZE] == min;
      }
    }

    // used says what is leased, reserved or anycast; unless the segment has room the unspecified
    // address, which reports failure, must not be among it. The result is the first unused
    // address from the cursor on, in at most one pass more than the segment has addresses.
    method NewAddress(used: Octets -> bool) returns (addr: Octets, ghost tries: nat)
      requires Valid()
      requires !used(UNSPECIFIED) || exists t :: Between(min, max, t) && !used(t)
      modifies free
      ensures Valid()
      ensures var found := Scan(used, min, max, old(free[..]), Width(min, max));
              && addr == (if found.Some? then found.value else UNSPECIFIED)
              && free[..] == (if found.Some? then Successor(min, max, found.value) else old(free[..]))
      ensures tries <= Width(min, max) + 1
      ensures (exists t :: Between(min, max, t) && !used(t)) ==> Between(min, max, addr) && !used(addr)
      ensures (forall t :: Between(min, max, t) ==> used(t)) ==> addr == UNSPECIFIED
    {
      hide Number, Power, Next, Scan, Successor, Walking, Segment, Between;
      Inside();
      var current := free[..];
      ScanComplete(used, min, max, current);
      ScanSound(used, min, max, current, Width(min, max));
      WalkStarts(used, min, max, current);
      var round := false;
      ghost var left := Width(min, max);
      tries := 0;
      while true
        invariant Valid() && Segment(min, max) && tries + left == Width(min, max)
        invariant Walking(used, min, max, current, free[..], round, left)
        decreases left
      {
        addr, tries := free[..], tries + 1;
        WalkEnds(used, min, max, current, addr, round, left);
        if round && current == addr {
          addr := UNSPECIFIED;
        } else {
          WalkGoesOn(used, min, max, current, addr, round, left);
          var wrapped := Advance();
          round := round || wrapped;
          left := left - 1;
        }
        if !used(addr) {
          return;
        }
      }
    }

    lemma Inside()
      requires Valid()
      ensures Segment(min, max) && Between(min, max, free[..])
    {
    }
  }
}
