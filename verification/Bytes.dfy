/** Bytes, network byte order, and counters kept as byte arrays. */
module Bytes {

  type byte = x: int | 0 <= x < 256

  type Octets = seq<byte>

  datatype Option<+T> = None | Some(value: T)

  // The low 16 and 24 bits of a number, most significant byte first.
  function Be2(n: nat): (b: Octets)
    ensures |b| == 2
  {
    [n / 0x100 % 0x100, n % 0x100]
  }

  function Be3(n: nat): (b: Octets)
    ensures |b| == 3
  {
    [n / 0x100 / 0x100 % 0x100, n / 0x100 % 0x100, n % 0x100]
  }

  function Get2(b: Octets): (n: nat)
    requires |b| >= 2
    ensures n < 0x10000
  {
    b[0] as int * 0x100 + b[1] as int
  }

  function Get3(b: Octets): (n: nat)
    requires |b| >= 3
    ensures n < 0x1000000
  {
    b[0] as int * 0x10000 + b[1] as int * 0x100 + b[2] as int
  }

  function Be4(n: nat): (b: Octets)
    ensures |b| == 4
  {
    Be2(n / 0x10000) + Be2(n)
  }

  function Get4(b: Octets): (n: nat)
    requires |b| >= 4
    ensures n < 0x100000000
  {
    Get2(b) * 0x10000 + Get2(b[2..])
  }

  lemma GetBe4(n: nat, rest: Octets)
    requires n < 0x100000000
    ensures Get4(Be4(n) + rest) == n
  {
    assert Be4(n) + rest == Be2(n / 0x10000) + (Be2(n) + rest);
    GetBe2(n / 0x10000, Be2(n) + rest);
    GetBe2(n, rest);
    assert (Be4(n) + rest)[2..] == Be2(n) + rest;
    hide Be2, Get2;
  }

  lemma GetBe2(n: nat, rest: Octets)
    ensures Get2(Be2(n) + rest) == n % 0x10000
  {
  }

  lemma GetBe3(n: nat, rest: Octets)
    ensures Get3(Be3(n) + rest) == n % 0x1000000
  {
    var q, r0 := n / 0x100, n % 0x100;
    var p, r1 := q / 0x100, q % 0x100;
    var o, r2 := p / 0x100, p % 0x100;
    assert (Be3(n) + rest)[0] == r2 && (Be3(n) + rest)[1] == r1 && (Be3(n) + rest)[2] == r0;
    Digits3(o, r2, r1, r0);
  }

  lemma Digits3(o: nat, r2: byte, r1: byte, r0: byte)
    ensures (0x100 * (0x100 * (0x100 * o + r2 as int) + r1 as int) + r0 as int) % 0x1000000
            == 0x10000 * r2 as int + 0x100 * r1 as int + r0 as int
  {
  }

  function Repeat(b: byte, n: nat): (s: Octets)
    ensures |s| == n && forall i :: 0 <= i < n ==> s[i] == b
  {
    seq(n, _ => b)
  }

  // ---------------------------------------------------------------------------
  // Counters: a byte string read as a number, most significant byte first
  // ---------------------------------------------------------------------------

  function Number(s: Octets): nat {
    if s == [] then 0 else 256 * Number(s[..|s| - 1]) + s[|s| - 1]
  }

  function Power(n: nat): (p: nat)
    ensures p > 0
  {
    if n == 0 then 1 else 256 * Power(n - 1)
  }

  // Add one from the last byte, carrying while bytes wrap to zero.
  function Next(s: Octets): (t: Octets)
    ensures |t| == |s|
  {
    if s == [] then []
    else if s[|s| - 1] == 255 then Next(s[..|s| - 1]) + [0]
    else s[..|s| - 1] + [s[|s| - 1] + 1]
  }

  lemma {:induction false} NumberBound(s: Octets)
    ensures Number(s) < Power(|s|)
  {
    if s != [] {
      NumberBound(s[..|s| - 1]);
    }
  }

  lemma {:induction false} NextCounts(s: Octets)
    ensures Number(Next(s)) == if Number(s) + 1 == Power(|s|) then 0 else Number(s) + 1
  {
    if s != [] {
      var front, last := s[..|s| - 1], s[|s| - 1];
      NumberBound(front);
      if last == 255 {
        NextCounts(front);
        assert (Next(front) + [0])[..|s| - 1] == Next(front);
      } else {
        assert Next(s)[..|s| - 1] == front;
      }
    }
  }

  lemma NextIsSuccessor(s: Octets)
    ensures Number(Next(s)) == (Number(s) + 1) % Power(|s|)
  {
    NextCounts(s);
    NumberBound(s);
    hide Number, Next, Power;
    WrapModulus(Number(s), Power(|s|));
  }

  lemma WrapModulus(n: nat, m: nat)
    requires n < m
    ensures (n + 1) % m == if n + 1 == m then 0 else n + 1
  {
  }

  // Division with a given quotient and remainder, and sums under a modulus.
  lemma MultipleGap(d: int, m: nat)
    ensures d >= 1 ==> d * m >= m
    ensures d <= -1 ==> d * m + m <= 0
  {
  }

  lemma Remainder(n: nat, m: nat, q: nat, r: nat)
    requires n == q * m + r && r < m
    ensures n % m == r
  {
    var q1, r1 := n / m, n % m;
    assert n == q1 * m + r1;
    assert (q - q1) * m == r1 - r;
    MultipleGap(q - q1, m);
  }

  lemma SmallModulus(n: nat, m: nat)
    requires n < m
    ensures n % m == n
  {
  }

  lemma ModulusSum(a: nat, b: nat, m: nat)
    requires m > 0
    ensures (a % m + b) % m == (a + b) % m
  {
    var q, r := a / m, a % m;
    var q1, r1 := (r + b) / m, (r + b) % m;
    assert a + b == (q + q1) * m + r1;
    Remainder(a + b, m, q + q1, r1);
  }

  lemma {:induction false} NumberInjective(s: Octets, t: Octets)
    requires |s| == |t| && Number(s) == Number(t)
    ensures s == t
  {
    if s != [] {
      var n := |s| - 1;
      assert s[n] == t[n] && Number(s[..n]) == Number(t[..n]);
      NumberInjective(s[..n], t[..n]);
      assert s == s[..n] + [s[n]] && t == t[..n] + [t[n]];
    }
  }

  // The carry runs through the trailing 255s and stops at the byte in front of them.
  lemma {:induction false} NextAt(s: Octets, i: int)
    requires -1 <= i < |s|
    requires forall k :: i < k < |s| ==> s[k] == 255
    requires i >= 0 ==> s[i] != 255
    ensures forall k :: 0 <= k < |s| ==> Next(s)[k] == if k < i then s[k] else if k == i then s[k] + 1 else 0
  {
    if i + 1 < |s| {
      NextAt(s[..|s| - 1], i);
    }
  }

  // The counter stepped in place, as the record layer and the address allocator do it.
  method Increment(a: array<byte>)
    modifies a
    ensures a[..] == Next(old(a[..]))
    ensures Number(a[..]) == (Number(old(a[..])) + 1) % Power(a.Length)
  {
    ghost var was := a[..];
    NextIsSuccessor(was);
    hide Number, Power, Next;
    var i := a.Length - 1;
    while i >= 0
      invariant -1 <= i < a.Length
      invariant forall k :: 0 <= k <= i ==> a[k] == was[k]
      invariant forall k :: i < k < a.Length ==> a[k] == 0 && was[k] == 255
    {
      if a[i] == 255 {
        a[i] := 0;
      } else {
        a[i] := a[i] + 1;
        break;
      }
      i := i - 1;
    }
    NextAt(was, i);
    assert forall k :: 0 <= k < a.Length ==> a[k] == Next(was)[k];
  }

  // ---------------------------------------------------------------------------
  // Writing into an array
  // ---------------------------------------------------------------------------

  // The array begins with s.
  ghost predicate Holds(a: array<byte>, s: Octets)
    reads a
  {
    |s| <= a.Length && a[..|s|] == s
  }

  method Copy(a: array<byte>, at: nat, b: Octets)
    requires at + |b| <= a.Length
    modifies a
    ensures a[..at] == old(a[..at]) && a[at..at + |b|] == b && a[at + |b|..] == old(a[at + |b|..])
  {
    var i := 0;
    while i < |b|
      invariant 0 <= i <= |b|
      invariant forall k :: 0 <= k < a.Length ==> a[k] == if at <= k < at + i then b[k - at] else old(a[k])
    {
      a[at + i] := b[i];
      i := i + 1;
    }
  }

  // Puts b behind the first at bytes.
  method Extend(a: array<byte>, at: nat, b: Octets, ghost s: Octets)
    requires Holds(a, s) && |s| == at && at + |b| <= a.Length
    modifies a
    ensures Holds(a, s + b)
  {
    Copy(a, at, b);
    assert a[..at + |b|] == a[..at] + a[at..at + |b|];
  }
}
