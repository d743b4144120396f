/** Namespace loads per ANA group, the automatic rebalancer's moves, and the two facts it is built on:
    the moves end, and where they end the loads are as even as the checks can make them. */
module Loads {
  import opened Text

  datatype Ns = Ns(nqn: string, nsid: nat)

  /** The listed namespaces and their ANA groups. */
  type Table = map<Ns, int>

  function InGroup(t: Table, g: int): set<Ns> {
    set n | n in t && t[n] == g
  }

  function InSubsys(t: Table, q: string): set<Ns> {
    set n | n in t && n.nqn == q
  }

  function InBoth(t: Table, g: int, q: string): set<Ns> {
    set n | n in t && t[n] == g && n.nqn == q
  }

  function GroupLoad(t: Table, g: int): nat {
    |InGroup(t, g)|
  }

  function SubsysLoad(t: Table, g: int, q: string): nat {
    |InBoth(t, g, q)|
  }

  function SubsysCount(t: Table, q: string): nat {
    |InSubsys(t, q)|
  }

  // ----- counters -----

  type NsLoads = map<int, int>
  type SubsLoads = map<int, map<string, int>>

  /** The list and its load counters: per group, and per group and subsystem. */
  datatype Books = Books(table: Table, ns: NsLoads, subs: SubsLoads)

  /** The load counters agree with the list: per group always, per group and subsystem wherever there is an
      entry, and there is an entry wherever there is a namespace. */
  predicate Accounted(b: Books) {
    match b
    case Books(t, ns, subs) =>
      && (forall n | n in t :: t[n] in ns && t[n] in subs && n.nqn in subs[t[n]])
      && (forall g | g in ns :: ns[g] == GroupLoad(t, g))
      && (forall g, q | g in subs && q in subs[g] :: subs[g][q] == SubsysLoad(t, g, q))
  }

  lemma MembersAfterAdd(t: Table, n: Ns, g: int, h: int, q: string)
    requires n !in t
    ensures InGroup(t[n := g], h) == if h == g then InGroup(t, h) + {n} else InGroup(t, h)
    ensures InBoth(t[n := g], h, q) == if h == g && q == n.nqn then InBoth(t, h, q) + {n} else InBoth(t, h, q)
  {
  }

  lemma LoadsAfterAdd(t: Table, n: Ns, g: int, h: int, q: string)
    requires n !in t
    ensures GroupLoad(t[n := g], h) == GroupLoad(t, h) + if h == g then 1 else 0
    ensures SubsysLoad(t[n := g], h, q) == SubsysLoad(t, h, q) + if h == g && q == n.nqn then 1 else 0
  {
    MembersAfterAdd(t, n, g, h, q);
  }

  lemma LoadsAfterRemove(t: Table, n: Ns, h: int, q: string)
    requires n in t
    ensures GroupLoad(t - {n}, h) == GroupLoad(t, h) - if h == t[n] then 1 else 0
    ensures SubsysLoad(t - {n}, h, q) == SubsysLoad(t, h, q) - if h == t[n] && q == n.nqn then 1 else 0
  {
    assert (t - {n})[n := t[n]] == t;
    LoadsAfterAdd(t - {n}, n, t[n], h, q);
  }

  lemma LoadsAfterMove(t: Table, n: Ns, d: int, h: int, q: string)
    requires n in t
    ensures GroupLoad(t[n := d], h) == GroupLoad(t, h) - (if h == t[n] then 1 else 0) + if h == d then 1 else 0
    ensures SubsysLoad(t[n := d], h, q)
            == SubsysLoad(t, h, q) - (if h == t[n] && q == n.nqn then 1 else 0) + if h == d && q == n.nqn then 1 else 0
  {
    LoadsAfterRemove(t, n, h, q);
    LoadsAfterAdd(t - {n}, n, d, h, q);
    assert (t - {n})[n := d] == t[n := d];
  }

  // ----- moves -----

  /** The smallest load a subsystem has over the listed groups. */
  function MinLoad(t: Table, grps: seq<int>, q: string): (m: nat)
    requires grps != []
    ensures forall g | g in grps :: m <= SubsysLoad(t, g, q)
    ensures exists g :: g in grps && m == SubsysLoad(t, g, q)
  {
    if |grps| == 1 then SubsysLoad(t, grps[0], q)
    else
      var rest := MinLoad(t, grps[1..], q);
      assert grps == [grps[0]] + grps[1..];
      if SubsysLoad(t, grps[0], q) <= rest then
        assert grps[0] in grps;
        SubsysLoad(t, grps[0], q)
      else
        var g :| g in grps[1..] && rest == SubsysLoad(t, g, q);
        assert g in grps;
        rest
  }

  /** The check for one group: its load is above the average `total / k`, and moving one namespace to the
      least loaded group keeps that group at or below the average, or leaves the two equal, or (with fewer
      namespaces than groups) gives an empty group its first one. Averages are compared as `load * k`. */
  predicate Fires(load: nat, min: nat, total: nat, k: nat) {
    load * k > total &&
    ((min + 1) * k <= total || load - 1 == min + 1 || (total < k && load > 1 && min == 0))
  }

  /** The check in terms of the average, as a quotient. */
  lemma FiresAsAverage(load: nat, min: nat, total: nat, k: nat)
    requires k > 0
    ensures var average := total as real / k as real;
            Fires(load, min, total, k) <==>
            && load as real > average
            && (|| (min + 1) as real <= average
                || (average < 1.0 && load > 1 && min == 0)
                || load - 1 == min + 1)
  {
    QuotientOrder(load, total, k);
    QuotientOrder(min + 1, total, k);
    QuotientOrder(1, total, k);
  }

  lemma QuotientOrder(a: nat, total: nat, k: nat)
    requires k > 0
    ensures a * k <= total <==> a as real <= total as real / k as real
  {
    assert (a * k) as real == a as real * k as real;
    assert (total as real / k as real) * k as real == total as real;
    RealOrder(a as real, total as real / k as real, k as real);
  }

  lemma RealOrder(x: real, y: real, k: real)
    requires k > 0.0
    ensures x <= y <==> x * k <= y * k
  {
    if x <= y { assert (y - x) * k >= 0.0; } else { assert (x - y) * k > 0.0; }
  }

  /** Each of the three conditions forces a gap of at least two. */
  lemma FiringGap(load: nat, min: nat, total: nat, k: nat)
    requires Fires(load, min, total, k)
    ensures load >= min + 2
  {
    MulOrder(load, min + 1, k);
  }

  lemma MulOrder(a: nat, b: nat, k: nat)
    ensures a <= b ==> a * k <= b * k
  {
    if a <= b { MulMonotone(a, b, k); }
  }

  lemma MulMonotone(a: nat, b: nat, k: nat)
    requires a <= b
    ensures a * k <= b * k
  {
    assert b * k == a * k + (b - a) * k;
  }

  /** The check of one group for one subsystem, on the table. */
  predicate CheckFires(t: Table, grps: seq<int>, g: int, q: string)
    requires grps != []
  {
    Fires(SubsysLoad(t, g, q), MinLoad(t, grps, q), SubsysCount(t, q), |grps|)
  }

  /** A successful automatic move: out of a group that is no longer listed to a listed group with the fewest
      namespaces, or out of a listed group whose check fires for the namespace's subsystem to a listed group with
      the fewest namespaces of that subsystem. */
  predicate IsMove(t: Table, n: Ns, d: int, grps: seq<int>) {
    n in t && d in grps &&
    if t[n] in grps then CheckFires(t, grps, t[n], n.nqn) && SubsysLoad(t, d, n.nqn) == MinLoad(t, grps, n.nqn)
    else LeastLoaded(t, grps, d)
  }

  predicate LeastLoaded(t: Table, grps: seq<int>, d: int) {
    d in grps && forall g | g in grps :: GroupLoad(t, d) <= GroupLoad(t, g)
  }

  ghost predicate AutoMove(t: Table, t': Table, grps: seq<int>) {
    exists n, d :: IsMove(t, n, d, grps) && t' == t[n := d]
  }

  // ----- termination -----

  function Outside(t: Table, grps: seq<int>): set<Ns> {
    set n | n in t && t[n] !in grps
  }

  /** Ordered pairs of namespaces of one subsystem in one group: their number is the sum of the squared
      loads over all subsystems and groups. */
  function Pairs(t: Table): set<(Ns, Ns)> {
    set a, b | a in t && b in t && a.nqn == b.nqn && t[a] == t[b] :: (a, b)
  }

  function Row(n: Ns, s: set<Ns>): set<(Ns, Ns)> {
    set m | m in s :: (n, m)
  }

  function Column(n: Ns, s: set<Ns>): set<(Ns, Ns)> {
    set m | m in s :: (m, n)
  }

  lemma LineSizes(n: Ns, s: set<Ns>)
    ensures |Row(n, s)| == |s| && |Column(n, s)| == |s|
  {
    if s != {} {
      var m :| m in s;
      LineSizes(n, s - {m});
      assert Row(n, s) == Row(n, s - {m}) + {(n, m)};
      assert Column(n, s) == Column(n, s - {m}) + {(m, n)};
    }
  }

  /** All pairs that involve `n` and another namespace of `s`. */
  function Cross(n: Ns, s: set<Ns>): set<(Ns, Ns)> {
    Row(n, s) + Column(n, s)
  }

  lemma CrossSize(n: Ns, s: set<Ns>)
    requires n !in s
    ensures |Cross(n, s)| == 2 * |s|
  {
    LineSizes(n, s);
    assert Row(n, s) !! Column(n, s);
  }

  lemma NewPairs(t: Table, n: Ns, g: int, p: (Ns, Ns))
    requires n !in t
    ensures p in Pairs(t[n := g]) <==>
            p in Pairs(t) || p in Cross(n, InBoth(t, g, n.nqn)) || p == (n, n)
    ensures p in Pairs(t) ==> p !in Cross(n, InBoth(t, g, n.nqn)) && p != (n, n)
  {
    var (a, b) := p;
  }

  lemma PairsAfterAdd(t: Table, n: Ns, g: int)
    requires n !in t
    ensures |Pairs(t[n := g])| == |Pairs(t)| + 2 * SubsysLoad(t, g, n.nqn) + 1
  {
    var mates := InBoth(t, g, n.nqn);
    var before, after, cross := Pairs(t), Pairs(t[n := g]), Cross(n, mates);
    CrossSize(n, mates);
    forall p ensures p in after <==> p in before || p in cross || p == (n, n) { NewPairs(t, n, g, p); }
    forall p | p in before ensures p !in cross && p != (n, n) { NewPairs(t, n, g, p); }
    Sizes(before, cross, (n, n), after);
  }

  lemma Sizes<T(!new)>(a: set<T>, b: set<T>, x: T, all: set<T>)
    requires a !! b && x !in a && x !in b
    requires forall y :: y in all <==> y in a || y in b || y == x
    ensures |all| == |a| + |b| + 1
  {
    assert all == a + b + {x};
  }

  lemma PairsAfterMove(t: Table, n: Ns, d: int)
    requires n in t && d != t[n]
    ensures |Pairs(t[n := d])| == |Pairs(t)| - 2 * (SubsysLoad(t, t[n], n.nqn) - 1) + 2 * SubsysLoad(t, d, n.nqn)
  {
    var u := t - {n};
    assert u[n := t[n]] == t && u[n := d] == t[n := d];
    PairsAfterAdd(u, n, t[n]);
    PairsAfterAdd(u, n, d);
    LoadsAfterRemove(t, n, t[n], n.nqn);
    LoadsAfterRemove(t, n, d, n.nqn);
  }

  /** Every automatic move decreases, lexicographically, the number of namespaces outside the listed groups
      and then the sum of squared loads. */
  lemma MoveDecreases(t: Table, t': Table, grps: seq<int>)
    requires AutoMove(t, t', grps)
    ensures t'.Keys == t.Keys
    ensures |Outside(t', grps)| < |Outside(t, grps)|
         || (|Outside(t', grps)| == |Outside(t, grps)| && |Pairs(t')| < |Pairs(t)|)
  {
    var n, d :| IsMove(t, n, d, grps) && t' == t[n := d];
    if t[n] in grps {
      FiringGap(SubsysLoad(t, t[n], n.nqn), MinLoad(t, grps, n.nqn), SubsysCount(t, n.nqn), |grps|);
      assert Outside(t', grps) == Outside(t, grps);
      PairsAfterMove(t, n, d);
    } else {
      assert Outside(t', grps) == Outside(t, grps) - {n};
    }
  }

  lemma PairsBound(t: Table)
    ensures |Pairs(t)| <= |t| * |t|
  {
    ProductSize(t.Keys, t.Keys);
    Subset(Pairs(t), Product(t.Keys, t.Keys));
  }

  function Product(a: set<Ns>, b: set<Ns>): set<(Ns, Ns)> {
    set x, y | x in a && y in b :: (x, y)
  }

  lemma ProductSize(a: set<Ns>, b: set<Ns>)
    ensures |Product(a, b)| == |a| * |b|
  {
    if a == {} {
      assert Product(a, b) == {};
    } else {
      var x :| x in a;
      ProductSize(a - {x}, b);
      ProductStep(a, b, x);
      OneMoreTime(|a|, |b|);
    }
  }

  lemma ProductStep(a: set<Ns>, b: set<Ns>, x: Ns)
    requires x in a
    ensures |Product(a, b)| == |Product(a - {x}, b)| + |b|
  {
    LineSizes(x, b);
    assert Product(a, b) == Product(a - {x}, b) + Row(x, b);
    assert Product(a - {x}, b) !! Row(x, b);
  }

  lemma OneMoreTime(m: int, k: int)
    ensures m * k == (m - 1) * k + k
  {
  }

  lemma Subset<T>(a: set<T>, b: set<T>)
    requires a <= b
    ensures |a| <= |b|
  {
    assert b == a + (b - a);
  }

  /** A number that bounds how many automatic moves are left. */
  function Measure(t: Table, grps: seq<int>): nat {
    |Outside(t, grps)| * (|t| * |t| + 1) + |Pairs(t)|
  }

  lemma MoveDecreasesMeasure(t: Table, t': Table, grps: seq<int>)
    requires AutoMove(t, t', grps)
    ensures Measure(t', grps) < Measure(t, grps)
  {
    MoveDecreases(t, t', grps);
    assert |t'| == |t'.Keys| == |t.Keys| == |t|;
    PairsBound(t');
    var c := |t| * |t| + 1;
    if |Outside(t', grps)| < |Outside(t, grps)| {
      MulMonotone(|Outside(t', grps)| + 1, |Outside(t, grps)|, c);
      assert (|Outside(t', grps)| + 1) * c == |Outside(t', grps)| * c + c;
    }
  }

  /** Rebalancing terminates: while namespaces and listed groups stay the same, no sequence of automatic
      moves is longer than the measure of the table it starts from. */
  lemma {:induction false} RebalanceTerminates(run: seq<Table>, grps: seq<int>)
    requires run != [] && forall i | 0 <= i < |run| - 1 :: AutoMove(run[i], run[i + 1], grps)
    ensures |run| - 1 <= Measure(run[0], grps)
  {
    if |run| > 1 {
      forall i | 0 <= i < |run[1..]| - 1 ensures AutoMove(run[1..][i], run[1..][i + 1], grps) {
        assert AutoMove(run[i + 1], run[i + 2], grps);
      }
      RebalanceTerminates(run[1..], grps);
      assert AutoMove(run[0], run[0 + 1], grps);
      MoveDecreasesMeasure(run[0], run[1], grps);
    }
  }

  // ----- quiescence -----

  function Sum(l: seq<nat>): nat {
    if l == [] then 0 else l[0] + Sum(l[1..])
  }

  predicate IsMin(l: seq<nat>, m: nat) {
    m in l && forall i | 0 <= i < |l| :: m <= l[i]
  }

  predicate IsMax(l: seq<nat>, m: nat) {
    m in l && forall i | 0 <= i < |l| :: l[i] <= m
  }

  /** No group's check fires on the load vector of a subsystem. */
  predicate Stuck(l: seq<nat>, min: nat) {
    forall i | 0 <= i < |l| :: !Fires(l[i], min, Sum(l), |l|)
  }

  lemma {:induction false} SumBounds(l: seq<nat>, lo: nat, hi: nat)
    requires forall i | 0 <= i < |l| :: lo <= l[i] <= hi
    ensures lo * |l| <= Sum(l) <= hi * |l|
  {
    if l != [] {
      SumBounds(l[1..], lo, hi);
      assert lo * |l| == lo * |l[1..]| + lo && hi * |l| == hi * |l[1..]| + hi;
    }
  }

  lemma {:induction false} SumWithOne(l: seq<nat>, lo: nat, x: nat)
    requires (forall i | 0 <= i < |l| :: lo <= l[i]) && x in l
    ensures lo * |l| + (x - lo) <= Sum(l)
  {
    assert lo * |l| == lo * |l[1..]| + lo;
    if l[0] == x {
      var hi := Sum(l[1..]);
      AtMostSum(l[1..]);
      SumBounds(l[1..], lo, hi);
    } else {
      assert l == [l[0]] + l[1..];
      SumWithOne(l[1..], lo, x);
    }
  }

  lemma AtMostSum(l: seq<nat>)
    ensures forall i | 0 <= i < |l| :: l[i] <= Sum(l)
  {
    forall i | 0 <= i < |l| ensures l[i] <= Sum(l) { ElementAtMostSum(l, i); }
  }

  lemma ElementAtMostSum(l: seq<nat>, i: nat)
    requires i < |l|
    ensures l[i] <= Sum(l)
  {
    if i > 0 { ElementAtMostSum(l[1..], i - 1); }
  }

  /** The vectors on which nothing fires, exactly: the loads differ by at most one, or every group has some,
      the total stays below the next full level, and no group is exactly two above the minimum. */
  lemma StuckExactly(l: seq<nat>, min: nat, max: nat)
    requires IsMin(l, min) && IsMax(l, max)
    ensures Stuck(l, min) <==>
            max - min <= 1 || (min > 0 && Sum(l) < (min + 1) * |l| && min + 2 !in l)
  {
    var k, total := |l|, Sum(l);
    SumBounds(l, min, max);
    SumWithOne(l, min, max);
    var top :| 0 <= top < k && l[top] == max;
    if max - min <= 1 {
      forall i | 0 <= i < k ensures !Fires(l[i], min, total, k) {
        if Fires(l[i], min, total, k) { FiringGap(l[i], min, total, k); }
      }
    } else {
      assert max * k > total by { MaxAboveAverage(l, min, max); }
      if Stuck(l, min) {
        assert !Fires(l[top], min, total, k);
        assert total < (min + 1) * k;
        NothingTwoAbove(l, min);
      }
    }
  }

  lemma NothingTwoAbove(l: seq<nat>, min: nat)
    requires Stuck(l, min) && Sum(l) < (min + 1) * |l|
    ensures min + 2 !in l
  {
    MulMonotone(min + 1, min + 2, |l|);
    forall i | 0 <= i < |l| ensures l[i] != min + 2 {
      assert !Fires(l[i], min, Sum(l), |l|);
    }
  }

  lemma MaxAboveAverage(l: seq<nat>, min: nat, max: nat)
    requires IsMin(l, min) && IsMax(l, max) && min < max
    ensures Sum(l) < max * |l|
  {
    var i :| 0 <= i < |l| && l[i] == min;
    SumBelow(l, max, i);
  }

  lemma {:induction false} SumBelow(l: seq<nat>, hi: nat, i: nat)
    requires (forall j | 0 <= j < |l| :: l[j] <= hi) && i < |l| && l[i] < hi
    ensures Sum(l) < hi * |l|
  {
    assert hi * |l| == hi * |l[1..]| + hi;
    if i == 0 {
      SumBounds(l[1..], 0, hi);
    } else {
      SumBelow(l[1..], hi, i - 1);
    }
  }

  /** Where nothing fires the gap between the most and the least loaded group is at most one when there are
      at most three groups or some group has none; otherwise it is smaller than the number of groups and
      never two. */
  lemma QuiescenceBound(l: seq<nat>, min: nat, max: nat)
    requires IsMin(l, min) && IsMax(l, max) && Stuck(l, min)
    ensures |l| <= 3 || min == 0 ==> max - min <= 1
    ensures max - min != 2 && (max - min <= 1 || max - min < |l|)
  {
    StuckExactly(l, min, max);
    SumWithOne(l, min, max);
    assert (min + 1) * |l| == min * |l| + |l|;
  }

  /** The bound is tight for every number of groups from four on: (k, 1, ..., 1) is stuck with gap k - 1. */
  lemma QuiescenceBoundIsTight(k: nat)
    requires k >= 4
    ensures var l := [k] + seq(k - 1, i => 1);
            |l| == k && IsMin(l, 1) && IsMax(l, k) && Stuck(l, 1)
  {
    var ones: seq<nat> := seq(k - 1, i => 1);
    var l := [k] + ones;
    SumBounds(ones, 1, 1);
    assert l[1..] == ones && l[1] == 1;
    assert Sum(l) == k + (k - 1);
    StuckExactly(l, 1, k);
  }

  function LoadsOf(t: Table, grps: seq<int>, q: string): seq<nat> {
    seq(|grps|, i requires 0 <= i < |grps| => SubsysLoad(t, grps[i], q))
  }

  function InGroups(t: Table, grps: seq<int>, q: string): set<Ns> {
    set n | n in t && n.nqn == q && t[n] in grps
  }

  lemma FirstGroup(t: Table, grps: seq<int>, q: string)
    requires grps != [] && forall i, j | 0 <= i < j < |grps| :: grps[i] != grps[j]
    ensures InGroups(t, grps, q) == InBoth(t, grps[0], q) + InGroups(t, grps[1..], q)
    ensures InBoth(t, grps[0], q) !! InGroups(t, grps[1..], q)
  {
    assert grps == [grps[0]] + grps[1..];
    assert grps[0] !in grps[1..];
    forall n ensures n in InGroups(t, grps, q) <==> n in InBoth(t, grps[0], q) || n in InGroups(t, grps[1..], q) {}
  }

  /** The loads over distinct groups add up to the namespaces listed in those groups. */
  lemma {:induction false} LoadsAddUp(t: Table, grps: seq<int>, q: string)
    requires forall i, j | 0 <= i < j < |grps| :: grps[i] != grps[j]
    ensures Sum(LoadsOf(t, grps, q)) == |InGroups(t, grps, q)|
  {
    if grps == [] {
      assert InGroups(t, grps, q) == {};
    } else {
      LoadsAddUp(t, grps[1..], q);
      assert LoadsOf(t, grps, q)[1..] == LoadsOf(t, grps[1..], q);
      FirstGroup(t, grps, q);
    }
  }

  lemma QuietIsStuck(t: Table, grps: seq<int>, q: string)
    requires grps != [] && Sum(LoadsOf(t, grps, q)) == SubsysCount(t, q)
    requires forall g | g in grps :: !CheckFires(t, grps, g, q)
    ensures Stuck(LoadsOf(t, grps, q), MinLoad(t, grps, q))
  {
    forall i | 0 <= i < |grps|
      ensures !Fires(SubsysLoad(t, grps[i], q), MinLoad(t, grps, q), SubsysCount(t, q), |grps|)
    {
      assert !CheckFires(t, grps, grps[i], q);
    }
  }

  /** Quiescence of the group: when every namespace is in a listed group and no listed group's check fires
      for a subsystem, any two of its loads obey the bound. */
  lemma QuietTableIsEven(t: Table, grps: seq<int>, q: string, a: int, b: int)
    requires (forall i, j | 0 <= i < j < |grps| :: grps[i] != grps[j]) && a in grps && b in grps
    requires forall n | n in t :: t[n] in grps
    requires forall g | g in grps :: !CheckFires(t, grps, g, q)
    ensures var gap := SubsysLoad(t, a, q) - SubsysLoad(t, b, q);
            && (|grps| <= 3 || (exists g :: g in grps && SubsysLoad(t, g, q) == 0) ==> gap <= 1)
            && (gap <= 1 || gap < |grps|)
            && (SubsysLoad(t, b, q) == MinLoad(t, grps, q) ==> gap != 2)
  {
    var l, min := LoadsOf(t, grps, q), MinLoad(t, grps, q);
    LoadsAddUp(t, grps, q);
    assert InSubsys(t, q) == InGroups(t, grps, q);
    forall g | g in grps ensures SubsysLoad(t, g, q) in l {
      var i :| 0 <= i < |grps| && grps[i] == g;
      assert l[i] == SubsysLoad(t, g, q);
    }
    assert IsMin(l, min);
    var max := MaxOf(l);
    QuietIsStuck(t, grps, q);
    QuiescenceBound(l, min, max);
    StuckExactly(l, min, max);
  }

  lemma MaxOf(l: seq<nat>) returns (m: nat)
    requires l != []
    ensures IsMax(l, m)
  {
    m := l[0];
    for i := 1 to |l|
      invariant m in l && forall j | 0 <= j < i :: l[j] <= m
    {
      if l[i] > m { m := l[i]; }
    }
  }
}
