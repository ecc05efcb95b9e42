/** The chained hash table of the DHCPv6 programs. It grows in place and refines a finite map. */
module DhcpHash {
  import opened Bytes

  datatype Status = Done | Collision | NotFound

  // ---------------------------------------------------------------------------
  // The load test
  // ---------------------------------------------------------------------------

  const WORD := 0x1_0000_0000

  // In 32-bit unsigned arithmetic.
  function Full(count: nat, size: nat): bool
    requires size > 0
  {
    count * 100 % WORD / size > 90
  }

  // A load of more than 90 percent, whatever the test makes of it.
  predicate Heavy(count: nat, size: nat) {
    count * 100 >= 91 * size
  }

  lemma QuotientBound(n: nat, k: nat, size: nat)
    requires size > 0
    ensures n / size > k <==> n >= (k + 1) * size
  {
    var q, r := n / size, n % size;
    assert n == q * size + r;
    if q > k {
      assert q * size >= (k + 1) * size;
    } else {
      assert (q + 1) * size <= (k + 1) * size;
    }
  }

  // The last count whose hundredfold still fits a word, and the last size at which the test is
  // right about every count a table of that size can come to.
  const MAX_COUNT := 42949672
  const MAX_SIZE := 47197441

  lemma FullIsLoad(count: nat, size: nat)
    requires size > 0 && count <= MAX_COUNT
    ensures Full(count, size) <==> count * 100 / size > 90
  {
  }

  lemma FullMeans(count: nat, size: nat)
    requires size > 0
    ensures Full(count, size) <==> count * 100 % WORD >= 91 * size
    ensures count * 100 / size > 90 <==> Heavy(count, size)
    ensures Full(count, size) ==> Heavy(count, size)
  {
    QuotientBound(count * 100 % WORD, 90, size);
    QuotientBound(count * 100, 90, size);
  }

  // A hundredfold that is cut to a word is still a multiple of four.
  lemma HundredfoldCut(count: nat)
    ensures count * 100 % WORD <= WORD - 4
  {
    var q := count * 100 / WORD;
    assert count * 100 % WORD == 4 * (count * 25 - q * 0x4000_0000);
  }

  // From a certain size on the test never finds a table full.
  lemma CanBeFull(size: nat)
    requires size > 0
    ensures (exists count :: Full(count, size)) <==> 91 * size <= WORD - 4
  {
    if 91 * size <= WORD - 4 {
      assert 1030792151 * 100 % WORD == WORD - 4;
      FullMeans(1030792151, size);
    }
    if count :| Full(count, size) {
      HundredfoldCut(count);
      FullMeans(count, size);
    }
  }

  // ---------------------------------------------------------------------------
  // How count and size develop
  // ---------------------------------------------------------------------------

  function Grown(count: nat, size: nat): (size1: nat)
    requires size > 0
    ensures size1 > 0
  {
    if Full(count, size) then 2 * size else size
  }

  // One entry more than a table may hold without being heavy, at most.
  predicate Lean(count: nat, size: nat) {
    count * 100 < 91 * size + 100
  }

  // What holds of every table: up to the last size it is lean.
  predicate Loaded(count: nat, size: nat) {
    size > 0 && (size <= MAX_SIZE ==> Lean(count, size))
  }

  lemma FullIsHeavy(count: nat, size: nat)
    requires 0 < size <= MAX_SIZE && Lean(count, size)
    ensures Full(count, size) <==> Heavy(count, size)
  {
    FullMeans(count, size);
  }

  // The test is right about all lean tables of a size exactly up to the last size.
  lemma TestIsRightExactly(size: nat)
    requires size > 0
    ensures (forall count :: Lean(count, size) ==> (Full(count, size) <==> Heavy(count, size))) <==> size <= MAX_SIZE
  {
    if size <= MAX_SIZE {
      forall count | Lean(count, size) ensures Full(count, size) <==> Heavy(count, size) {
        FullIsHeavy(count, size);
      }
    } else {
      var count := FirstHeavy(size);
      HeavyUnseen(count, size);
      assert Lean(count, size);
    }
  }

  // The first count at which a table of this size is heavy.
  function FirstHeavy(size: nat): (count: nat)
    ensures Heavy(count, size) && (count > 0 ==> !Heavy(count - 1, size)) && Lean(count, size)
  {
    (91 * size + 99) / 100
  }

  // Beyond the last size a heavy table stays heavy: the test does not see it, or one growth is
  // not enough.
  lemma HeavyUnseen(count: nat, size: nat)
    requires size > MAX_SIZE && Heavy(count, size)
    ensures Lean(count, size) ==> !Full(count, size)
    ensures Heavy(count, Grown(count, size))
  {
    FullMeans(count, size);
    HundredfoldCut(count);
    if Full(count, size) {
      assert size == MAX_SIZE + 1;
      OverAWord(count);
    }
  }

  // At the one size in between the test is right only about counts whose hundredfold has
  // overrun a word.
  lemma OverAWord(count: nat)
    ensures count * 100 % WORD >= 91 * (MAX_SIZE + 1) ==> count * 100 >= WORD + 91 * (MAX_SIZE + 1)
  {
    if count <= MAX_COUNT {
      assert count * 100 % WORD == count * 100 <= 100 * MAX_COUNT;
    } else {
      assert count * 100 >= WORD;
    }
  }

  // The load before an insertion is at most 90 percent exactly if the table was no bigger than
  // the last size or not heavy; then there is a bucket to spare.
  lemma LightAfterGrowth(n: nat, size: nat)
    requires Loaded(n, size)
    ensures n * 100 / Grown(n, size) <= 90 <==> size <= MAX_SIZE || !Heavy(n, size)
    ensures size <= MAX_SIZE || !Heavy(n, size) ==> n < Grown(n, size)
    ensures Loaded(n, Grown(n, size)) && Loaded(n + 1, Grown(n, size))
  {
    FullMeans(n, size);
    FullMeans(n, Grown(n, size));
    if size <= MAX_SIZE {
      FullIsHeavy(n, size);
    } else if Heavy(n, size) {
      HeavyUnseen(n, size);
    }
  }

  // ---------------------------------------------------------------------------
  // Runs
  // ---------------------------------------------------------------------------

  datatype Shape = Shape(count: nat, size: nat)

  // An addition grows a full table even if the key turns out to be taken.
  datatype Op = Adding(isNew: bool) | Deleting(known: bool)

  function Apply(t: Shape, op: Op): Shape
    requires t.size > 0
  {
    match op
    case Adding(isNew) => Shape(if isNew then t.count + 1 else t.count, Grown(t.count, t.size))
    case Deleting(known) => Shape(if known && t.count > 0 then t.count - 1 else t.count, t.size)
  }

  function Run(t: Shape, ops: seq<Op>): (r: Shape)
    requires t.size > 0
    ensures r.size >= t.size
    decreases |ops|
  {
    if ops == [] then t else Run(Apply(t, ops[0]), ops[1..])
  }

  lemma {:induction false} RunKeepsLoaded(t: Shape, ops: seq<Op>)
    requires t.size > 0 && Loaded(t.count, t.size)
    ensures var r := Run(t, ops); Loaded(r.count, r.size)
    decreases |ops|
  {
    hide Loaded;
    if ops != [] {
      ApplyKeepsLoaded(t, ops[0]);
      RunKeepsLoaded(Apply(t, ops[0]), ops[1..]);
    }
  }

  lemma LoadedMeans(count: nat, size: nat)
    requires Loaded(count, size)
    ensures size > 0
  {
  }

  lemma ApplyKeepsLoaded(t: Shape, op: Op)
    requires t.size > 0 && Loaded(t.count, t.size)
    ensures var r := Apply(t, op); Loaded(r.count, r.size)
  {
    hide Grown;
    LightAfterGrowth(t.count, t.size);
  }

  // After any run of additions and deletions from an empty table, the next addition finds a load
  // of at most 90 percent exactly if the table has not outgrown the last size or is not heavy.
  lemma RunLoadsExactly(size: nat, ops: seq<Op>)
    requires size > 0
    ensures var t := Run(Shape(0, size), ops);
            && Loaded(t.count, t.size)
            && (t.count * 100 / Grown(t.count, t.size) <= 90 <==> t.size <= MAX_SIZE || !Heavy(t.count, t.size))
  {
    hide Grown, Heavy;
    RunKeepsLoaded(Shape(0, size), ops);
    var t := Run(Shape(0, size), ops);
    LightAfterGrowth(t.count, t.size);
  }

  // Nothing but new entries.
  function News(n: nat): seq<Op> {
    seq(n, _ => Adding(true))
  }

  lemma {:induction false} RunNews(t: Shape, m: nat, n: nat)
    requires t.size > 0
    ensures Run(t, News(m + n)) == Run(Run(t, News(m)), News(n))
    decreases m
  {
    hide Grown;
    if m == 0 {
      assert News(m) == [];
    } else {
      assert News(m + n)[1..] == News(m - 1 + n) && News(m)[1..] == News(m - 1);
      assert News(m + n)[0] == Adding(true) == News(m)[0];
      RunNews(Apply(t, Adding(true)), m - 1, n);
    }
  }

  lemma RunOne(t: Shape)
    requires t.size > 0
    ensures Run(t, News(1)) == Shape(t.count + 1, Grown(t.count, t.size))
  {
    assert News(1)[1..] == [] && News(1)[0] == Adding(true);
  }

  // New entries up to the one that finds the table heavy do not make it grow.
  lemma {:induction false} Fills(t: Shape, n: nat)
    requires t.size > 0 && (n > 0 ==> !Heavy(t.count + n - 1, t.size))
    ensures Run(t, News(n)) == Shape(t.count + n, t.size)
    decreases n
  {
    hide Full;
    if n == 0 {
      assert News(0) == [];
    } else {
      FullMeans(t.count, t.size);
      RunOne(t);
      RunNews(t, 1, n - 1);
      Fills(Shape(t.count + 1, t.size), n - 1);
    }
  }

  // A table made bigger than the last size breaks the bound at the first count that is heavy.
  lemma BreaksAtFirstHeavy(size: nat)
    requires size > MAX_SIZE
    ensures var n := FirstHeavy(size);
            && Run(Shape(0, size), News(n)) == Shape(n, size)
            && !Full(n, size) && n * 100 / Grown(n, size) > 90
  {
    hide Full;
    var n := FirstHeavy(size);
    Fills(Shape(0, size), n);
    HeavyUnseen(n, size);
    LightAfterGrowth(n, size);
  }

  function Doubled(size: nat, k: nat): nat {
    if k == 0 then size else 2 * Doubled(size, k - 1)
  }

  // New entries up to the first heavy count and one more make it grow once.
  lemma Doubles(t: Shape)
    requires 1 < t.size <= MAX_SIZE && (t.count > 0 ==> !Heavy(t.count - 1, t.size))
    ensures var full := FirstHeavy(t.size);
            && t.count <= full && !Heavy(full, 2 * t.size)
            && Run(t, News(full - t.count + 1)) == Shape(full + 1, 2 * t.size)
  {
    hide Full, Run;
    var full := FirstHeavy(t.size);
    Fills(t, full - t.count);
    RunNews(t, full - t.count, 1);
    FullIsHeavy(full, t.size);
    RunOne(Shape(full, t.size));
  }

  // A table that only gets new entries comes to any size its last growth allows.
  lemma {:induction false} ReachesSize(size: nat, k: nat) returns (n: nat)
    requires size > 1 && (k > 0 ==> Doubled(size, k - 1) <= MAX_SIZE)
    ensures Run(Shape(0, size), News(n)) == Shape(n, Doubled(size, k))
    ensures Doubled(size, k) > 1 && (n > 0 ==> !Heavy(n - 1, Doubled(size, k)))
    decreases k
  {
    hide Full, Run, Heavy;
    n := 0;
    if k == 0 {
      NoNews(Shape(0, size));
    } else {
      var m := ReachesSize(size, k - 1);
      var t := Shape(m, Doubled(size, k - 1));
      Doubles(t);
      RunNews(Shape(0, size), m, FirstHeavy(t.size) - m + 1);
      n := FirstHeavy(t.size) + 1;
    }
  }

  lemma NoNews(t: Shape)
    requires t.size > 0
    ensures Run(t, News(0)) == t
  {
    assert News(0) == [];
  }

  // The size the programs start their tables with.
  const DEFAULT_SIZE := 4095

  // After its fourteenth growth the default table has outgrown the last size. With 61054157 new
  // entries it holds more than 90 percent in 67092480 buckets, and the next addition does not see
  // it.
  lemma DefaultBreaks()
    ensures Run(Shape(0, DEFAULT_SIZE), News(61054157)) == Shape(61054157, 67092480)
    ensures !Full(61054157, 67092480) && 61054157 * 100 / Grown(61054157, 67092480) == 91
  {
    hide Run;
    DefaultDoubled();
    var n := ReachesSize(DEFAULT_SIZE, 14);
    Fills(Shape(n, 67092480), 61054157 - n);
    RunNews(Shape(0, DEFAULT_SIZE), n, 61054157 - n);
  }

  lemma DefaultDoubled()
    ensures Doubled(DEFAULT_SIZE, 13) == 33546240 && Doubled(DEFAULT_SIZE, 14) == 67092480
  {
    assert Doubled(DEFAULT_SIZE, 5) == 131040;
    assert Doubled(DEFAULT_SIZE, 9) == 2096640;
  }

  // ---------------------------------------------------------------------------
  // The table
  // ---------------------------------------------------------------------------

  // Chains of entries d with key keyOf(d), hashed by hash and compared with a key by same. Two
  // keys that name the same entry have the same canonical form.
  class HashTable<!K(!new), !D(!new,==), !C(!new,==)> {
    const hash: K -> nat
    const keyOf: D -> K
    const same: (D, K) -> bool
    ghost const canon: K -> C
    var list: array<seq<D>>
    var count: nat
    ghost var contents: map<C, D>

    // The comparison is equality of canonical forms, and the hash respects it.
    ghost predicate Coherent() {
      && (forall d, k :: same(d, k) <==> canon(keyOf(d)) == canon(k))
      && (forall k1, k2 :: canon(k1) == canon(k2) ==> hash(k1) == hash(k2))
    }

    ghost predicate Valid()
      reads this, list
    {
      && Coherent()
      && Holds(list[..], contents)
      && count == |contents|
      && Loaded(count, list.Length)
    }

    // Every entry of m is in its bucket, nothing else is in any bucket, and nothing twice.
    ghost predicate Holds(buckets: seq<seq<D>>, m: map<C, D>) {
      && |buckets| > 0
      && (forall i, d :: 0 <= i < |buckets| && d in buckets[i] ==> Placed(d, i, |buckets|, m))
      && (forall c :: c in m ==> canon(keyOf(m[c])) == c && m[c] in buckets[hash(keyOf(m[c])) % |buckets|])
      && (forall i :: 0 <= i < |buckets| ==> Distinct(buckets[i]))
    }

    ghost predicate Placed(d: D, i: nat, size: nat, m: map<C, D>)
      requires size > 0
    {
      hash(keyOf(d)) % size == i && canon(keyOf(d)) in m && m[canon(keyOf(d))] == d
    }

    static ghost predicate Distinct(s: seq<D>) {
      forall j, k :: 0 <= j < k < |s| ==> s[j] != s[k]
    }

    constructor (size: nat, hash: K -> nat, keyOf: D -> K, same: (D, K) -> bool, ghost canon: K -> C)
      requires size > 0
      requires forall d, k :: same(d, k) <==> canon(keyOf(d)) == canon(k)
      requires forall k1, k2 :: canon(k1) == canon(k2) ==> hash(k1) == hash(k2)
      ensures Valid() && contents == map[] && fresh(list) && list.Length == size
      ensures this.hash == hash && this.keyOf == keyOf && this.same == same && this.canon == canon
    {
      this.hash, this.keyOf, this.same, this.canon := hash, keyOf, same, canon;
      list := new seq<D>[size](_ => []);
      count, contents := 0, map[];
    }

    // The entry with the key, if any.
    method Search(key: K) returns (r: Option<D>)
      requires Valid()
      ensures r == if canon(key) in contents then Some(contents[canon(key)]) else None
    {
      hide Loaded, Holds, Coherent;
      LoadedMeans(count, list.Length);
      var index := hash(key) % list.Length;
      ChainHas(list[..], contents, key);
      var at := Position(list[index], key);
      r := if at < |list[index]| then Some(list[index][at]) else None;
    }

    // What a search meets in the key's bucket.
    lemma ChainHas(buckets: seq<seq<D>>, m: map<C, D>, key: K)
      requires Coherent() && Holds(buckets, m)
      ensures var chain := buckets[hash(key) % |buckets|];
              && (forall d :: d in chain && same(d, key) ==> canon(key) in m && m[canon(key)] == d)
              && (canon(key) in m ==> m[canon(key)] in chain && same(m[canon(key)], key))
    {
      forall d | d in buckets[hash(key) % |buckets|] && same(d, key) ensures canon(key) in m && m[canon(key)] == d {
        assert Placed(d, hash(key) % |buckets|, |buckets|, m);
      }
    }

    // ---------------------------------------------------------------------------
    // Changing one chain
    // ---------------------------------------------------------------------------

    lemma PushedHolds(buckets: seq<seq<D>>, m: map<C, D>, d: D)
      requires Holds(buckets, m) && canon(keyOf(d)) !in m
      ensures var index := hash(keyOf(d)) % |buckets|;
              Holds(buckets[index := [d] + buckets[index]], m[canon(keyOf(d)) := d])
    {
      var index := hash(keyOf(d)) % |buckets|;
      var after, m1 := buckets[index := [d] + buckets[index]], m[canon(keyOf(d)) := d];
      assert !Placed(d, index, |buckets|, m);
      forall i, e | 0 <= i < |after| && e in after[i] ensures Placed(e, i, |after|, m1) {
        if !(i == index && e == d) {
          assert e in buckets[i];
          assert Placed(e, i, |buckets|, m);
        }
      }
    }

    lemma CutHolds(buckets: seq<seq<D>>, m: map<C, D>, index: nat, at: nat)
      requires Holds(buckets, m) && index < |buckets| && at < |buckets[index]|
      ensures var d := buckets[index][at];
              && canon(keyOf(d)) in m && m[canon(keyOf(d))] == d
              && Holds(buckets[index := buckets[index][..at] + buckets[index][at + 1..]], m - {canon(keyOf(d))})
    {
      var d, chain := buckets[index][at], buckets[index];
      var cut := chain[..at] + chain[at + 1..];
      var after, m1 := buckets[index := cut], m - {canon(keyOf(d))};
      CutKeepsOthers(chain, at);
      assert Placed(d, index, |buckets|, m);
      forall i, e | 0 <= i < |after| && e in after[i] ensures Placed(e, i, |after|, m1) {
        assert e in buckets[i];
        assert Placed(e, i, |buckets|, m);
      }
    }

    static lemma CutKeepsOthers(chain: seq<D>, at: nat)
      requires at < |chain| && Distinct(chain)
      ensures var cut := chain[..at] + chain[at + 1..];
              Distinct(cut) && forall e :: e in cut <==> e in chain && e != chain[at]
    {
      var cut := chain[..at] + chain[at + 1..];
      forall e ensures e in cut <==> e in chain && e != chain[at] {
        if e in chain && e != chain[at] {
          var j :| 0 <= j < |chain| && chain[j] == e;
          assert cut[if j < at then j else j - 1] == e;
        }
      }
    }

    // Puts an entry in front of its bucket's chain.
    method Link(buckets: array<seq<D>>, d: D, ghost m: map<C, D>)
      requires Holds(buckets[..], m) && canon(keyOf(d)) !in m
      modifies buckets
      ensures Holds(buckets[..], m[canon(keyOf(d)) := d])
    {
      PushedHolds(buckets[..], m, d);
      ghost var before := buckets[..];
      var index := hash(keyOf(d)) % buckets.Length;
      assert |before| > 0;
      hide Holds;
      buckets[index] := [d] + buckets[index];
      assert buckets[..] == before[index := [d] + before[index]];
    }

    // ---------------------------------------------------------------------------
    // Growing
    // ---------------------------------------------------------------------------

    // The entries moved so far: all of the first i buckets and the first j of the next.
    ghost predicate Moved(buckets: seq<seq<D>>, m: map<C, D>, i: nat, j: nat, moved: map<C, D>)
      requires |buckets| > 0
    {
      && (forall c :: c in moved ==> c in m && moved[c] == m[c])
      && (forall c :: c in m ==> (c in moved <==>
            var b := hash(keyOf(m[c])) % |buckets|;
            b < i || (b == i < |buckets| && j <= |buckets[i]| && m[c] in buckets[i][..j])))
    }

    lemma MoveOne(buckets: seq<seq<D>>, m: map<C, D>, i: nat, j: nat, moved: map<C, D>)
      requires Holds(buckets, m) && i < |buckets| && j < |buckets[i]| && Moved(buckets, m, i, j, moved)
      ensures var d := buckets[i][j];
              canon(keyOf(d)) !in moved && Moved(buckets, m, i, j + 1, moved[canon(keyOf(d)) := d])
    {
      var d := buckets[i][j];
      assert d in buckets[i];
      assert Placed(d, i, |buckets|, m);
      assert d !in buckets[i][..j];
      assert buckets[i][..j + 1] == buckets[i][..j] + [d];
    }

    lemma MoveChain(buckets: seq<seq<D>>, m: map<C, D>, i: nat, moved: map<C, D>)
      requires Holds(buckets, m) && i < |buckets| && Moved(buckets, m, i, |buckets[i]|, moved)
      ensures Moved(buckets, m, i + 1, 0, moved)
    {
      assert buckets[i][..|buckets[i]|] == buckets[i];
    }

    lemma MoveAll(buckets: seq<seq<D>>, m: map<C, D>, moved: map<C, D>)
      requires |buckets| > 0 && Moved(buckets, m, |buckets|, 0, moved)
      ensures moved == m
    {
    }

    lemma MoveNone(buckets: seq<seq<D>>, m: map<C, D>)
      requires |buckets| > 0
      ensures Moved(buckets, m, 0, 0, map[])
    {
    }

    lemma EmptyHolds(n: nat)
      requires n > 0
      ensures Holds(seq(n, _ => []), map[])
    {
    }

    // Moves one chain into the new buckets.
    method Rehash(chain: seq<D>, ghost buckets: seq<seq<D>>, ghost m: map<C, D>, ghost i: nat, newList: array<seq<D>>,
                  newCount: nat, ghost moved: map<C, D>)
      returns (newCount1: nat, ghost moved1: map<C, D>)
      requires Holds(buckets, m) && i < |buckets| && chain == buckets[i] && Moved(buckets, m, i, 0, moved)
      requires Holds(newList[..], moved) && newCount == |moved|
      modifies newList
      ensures Holds(newList[..], moved1) && newCount1 == |moved1| && Moved(buckets, m, i + 1, 0, moved1)
    {
      hide Holds, Moved;
      newCount1, moved1 := newCount, moved;
      var element := 0;
      while element < |chain|
        invariant 0 <= element <= |chain|
        invariant Holds(newList[..], moved1) && newCount1 == |moved1| && Moved(buckets, m, i, element, moved1)
      {
        var d := chain[element];
        MoveOne(buckets, m, i, element, moved1);
        Link(newList, d, moved1);
        moved1 := moved1[canon(keyOf(d)) := d];
        newCount1 := newCount1 + 1;
        element := element + 1;
      }
      MoveChain(buckets, m, i, moved1);
    }

    method MoveChains(newList: array<seq<D>>) returns (newCount: nat)
      requires Holds(list[..], contents) && Holds(newList[..], map[]) && newList != list
      modifies newList
      ensures Holds(newList[..], contents) && newCount == |contents|
    {
      ghost var buckets := list[..];
      assert |buckets| > 0;
      MoveNone(buckets, contents);
      hide Holds, Moved;
      newCount := 0;
      ghost var moved: map<C, D> := map[];
      var i := 0;
      while i < list.Length
        invariant 0 <= i <= list.Length && buckets == list[..]
        invariant Holds(newList[..], moved) && newCount == |moved| && Moved(buckets, contents, i, 0, moved)
      {
        newCount, moved := Rehash(list[i], buckets, contents, i, newList, newCount, moved);
        i := i + 1;
      }
      MoveAll(buckets, contents, moved);
    }

    // Twice as many buckets; every entry moves to its new one.
    method Grow()
      requires Valid()
      modifies this`count, this`list
      ensures Valid() && count == old(count)
      ensures fresh(list) && list.Length == 2 * old(list.Length)
    {
      var size := 2 * list.Length;
      EmptyHolds(size);
      hide Holds, Coherent;
      var newList := new seq<D>[size](_ => []);
      assert newList[..] == seq(size, _ => []);
      var newCount := MoveChains(newList);
      count, list := newCount, newList;
    }

    // ---------------------------------------------------------------------------
    // Adding and deleting
    // ---------------------------------------------------------------------------

    // A new entry, unless its key is taken. The table grows first when it is full.
    method Add(d: D) returns (status: Status)
      requires Valid()
      modifies this, list
      ensures Valid() && (list == old(list) || fresh(list))
      ensures if canon(keyOf(d)) in old(contents) then status == Collision && contents == old(contents)
              else status == Done && contents == old(contents)[canon(keyOf(d)) := d]
      ensures Shape(count, list.Length) == Apply(Shape(old(count), old(list.Length)), Adding(status == Done))
      ensures old(count) * 100 / list.Length <= 90
         <==> old(list.Length) <= MAX_SIZE || !Heavy(old(count), old(list.Length))
      ensures old(list.Length) <= MAX_SIZE || !Heavy(old(count), old(list.Length)) ==> count <= list.Length
    {
      hide Holds, Coherent, Full, Loaded, Heavy;
      LightAfterGrowth(count, list.Length);
      if Full(count, list.Length) {
        Grow();
      }
      var found := Search(keyOf(d));
      if found.Some? {
        return Collision;
      }
      Link(list, d, contents);
      OneMore(contents, d);
      contents := contents[canon(keyOf(d)) := d];
      count := count + 1;
      return Done;
    }

    lemma OneMore(m: map<C, D>, d: D)
      requires canon(keyOf(d)) !in m
      ensures |m[canon(keyOf(d)) := d]| == |m| + 1
    {
      var c := canon(keyOf(d));
      assert m[c := d].Keys == m.Keys + {c};
    }

    method Delete(key: K) returns (status: Status)
      requires Valid()
      modifies this`count, this`contents, list
      ensures Valid()
      ensures if canon(key) in old(contents) then status == Done && contents == old(contents) - {canon(key)}
              else status == NotFound && contents == old(contents)
      ensures Shape(count, list.Length) == Apply(Shape(old(count), old(list.Length)), Deleting(status == Done))
    {
      hide Loaded, Holds, Coherent;
      LoadedMeans(count, list.Length);
      var index := hash(key) % list.Length;
      ChainHas(list[..], contents, key);
      SameIsCanon(key);
      var element := Position(list[index], key);
      if element == |list[index]| {
        return NotFound;
      }
      Cut(index, element);
      return Done;
    }

    // Where the key is met in a chain.
    method Position(chain: seq<D>, key: K) returns (at: nat)
      ensures at <= |chain| && (at < |chain| ==> same(chain[at], key))
      ensures forall j :: 0 <= j < at ==> !same(chain[j], key)
    {
      at := 0;
      while at < |chain| && !same(chain[at], key)
        invariant 0 <= at <= |chain|
        invariant forall j :: 0 <= j < at ==> !same(chain[j], key)
      {
        at := at + 1;
      }
    }

    // Takes one element out of a chain.
    method Cut(index: nat, at: nat)
      requires Valid() && index < list.Length && at < |list[index]|
      modifies this`count, this`contents, list
      ensures Valid()
      ensures var c := canon(keyOf(old(list[index][at]))); c in old(contents) && contents == old(contents) - {c}
      ensures 0 < old(count) == count + 1
    {
      hide Loaded, Coherent, Holds;
      LoadedMeans(count, list.Length);
      ApplyKeepsLoaded(Shape(count, list.Length), Deleting(true));
      ghost var before, c := list[..], canon(keyOf(list[index][at]));
      CutHolds(before, contents, index, at);
      OneLess(contents, c);
      list[index] := list[index][..at] + list[index][at + 1..];
      assert list[..] == before[index := before[index][..at] + before[index][at + 1..]];
      contents := contents - {c};
      count := count - 1;
    }

    lemma SameIsCanon(key: K)
      requires Coherent()
      ensures forall d :: same(d, key) <==> canon(keyOf(d)) == canon(key)
    {
    }

    static lemma OneLess(m: map<C, D>, c: C)
      requires c in m
      ensures |m - {c}| == |m| - 1
    {
      assert m == (m - {c})[c := m[c]];
    }
  }
}
