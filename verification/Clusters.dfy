/** The three ways to share RADOS cluster contexts between block devices, and the block devices that use them. */
module Clusters {
  import opened Text

  /** A cluster context: numbered within its group, without a group, or in the pool. */
  datatype Context = OfGroup(group: nat, index: nat) | Flat(index: nat) | Pooled(index: nat)

  const CONTEXT_PREFIX := "cluster_context_"

  /** The name under which a context is registered. */
  function Name(c: Context): string {
    match c
    case OfGroup(g, x) => CONTEXT_PREFIX + Decimal(g) + [DELIMITER] + Decimal(x)
    case Flat(x) => CONTEXT_PREFIX + Decimal(x)
    case Pooled(i) => "cluster_" + Decimal(i + 1)
  }

  /** The uses of some contexts. */
  type Row = map<Context, nat>

  function NameParts(c: Context): seq<string> {
    match c
    case OfGroup(g, x) => ["cluster", "context", Decimal(g), Decimal(x)]
    case Flat(x) => ["cluster", "context", Decimal(x)]
    case Pooled(i) => ["cluster", Decimal(i + 1)]
  }

  lemma PrefixIsJoined(last: string)
    ensures Join(["cluster", "context", last]) == CONTEXT_PREFIX + last
  {
    JoinAppend(["cluster"], "context");
    JoinAppend(["cluster", "context"], last);
    assert ["cluster"] + ["context"] == ["cluster", "context"];
    assert ["cluster", "context"] + [last] == ["cluster", "context", last];
  }

  lemma NameIsJoined(c: Context)
    ensures AllFree(NameParts(c)) && Name(c) == Join(NameParts(c))
  {
    match c
    case OfGroup(g, x) =>
      var parts := ["cluster", "context", Decimal(g)];
      PrefixIsJoined(Decimal(g));
      JoinAppend(parts, Decimal(x));
      assert NameParts(c) == parts + [Decimal(x)];
    case Flat(x) =>
      PrefixIsJoined(Decimal(x));
    case Pooled(i) =>
      JoinAppend(["cluster"], Decimal(i + 1));
      assert NameParts(c) == ["cluster"] + [Decimal(i + 1)];
  }

  /** The names, character by character. */
  lemma ContextNames(g: nat, x: nat)
    ensures Name(OfGroup(g, x)) == "cluster_context_" + Decimal(g) + "_" + Decimal(x)
    ensures Name(Flat(x)) == "cluster_context_" + Decimal(x) && Name(Pooled(x)) == "cluster_" + Decimal(x + 1)
  {
    assert [DELIMITER] == "_";
  }

  /** Different contexts have different names, so that looking a name up finds the right context. */
  lemma NamesDistinct(c: Context, d: Context)
    requires Name(c) == Name(d)
    ensures c == d
  {
    NameIsJoined(c);
    NameIsJoined(d);
    SplitJoin(NameParts(c));
    SplitJoin(NameParts(d));
    var p, q := NameParts(c), NameParts(d);
    assert |p| == |q| && p[1] == q[1] && p[|p| - 1] == q[|p| - 1] && (|p| == 4 ==> p[2] == q[2]);
    ParseOfDecimal(c.index);
    ParseOfDecimal(c.index + 1);
    ParseOfDecimal(d.index);
    ParseOfDecimal(d.index + 1);
    if c.OfGroup? && d.OfGroup? { DecimalInjective(c.group, d.group); }
  }

  ghost predicate Injective(name: nat -> Context) {
    forall x: nat, y: nat :: name(x) == name(y) ==> x == y
  }

  /** Numbered names that all occur in a row: no more than the row has. */
  lemma NamesTaken(name: nat -> Context, n: nat, taken: set<Context>)
    requires Injective(name) && forall y: nat | y < n :: name(y) in taken
    ensures n <= |taken|
  {
    if n > 0 {
      forall y: nat | y < n - 1 ensures name(y) in taken - {name(n - 1)} {
        assert name(y) == name(n - 1) ==> y == n - 1;
      }
      NamesTaken(name, n - 1, taken - {name(n - 1)});
    }
  }

  /** Counts up from 0 to the first name that is not taken. */
  method LowestFree(name: nat -> Context, taken: set<Context>) returns (x: nat)
    requires Injective(name)
    ensures name(x) !in taken && x <= |taken|
    ensures forall y: nat | y < x :: name(y) in taken
  {
    x := 0;
    while name(x) in taken
      invariant forall y: nat | y < x :: name(y) in taken
      invariant x <= |taken|
      decreases |taken| - x
    {
      x := x + 1;
      NamesTaken(name, x, taken);
    }
    NamesTaken(name, x, taken);
  }

  // ----- rows -----

  predicate Full(row: Row, cap: nat) {
    forall n | n in row :: row[n] >= cap
  }

  /** The context is not in the row, all contexts of its kind with lower numbers are, and so its number is at most
      the number of contexts in the row. */
  predicate FirstFree(row: Row, n: Context) {
    n !in row && n.index <= |row| &&
    match n
    case OfGroup(g, x) => forall y: nat | y < x :: OfGroup(g, y) in row
    case Flat(x) => forall y: nat | y < x :: Flat(y) in row
    case Pooled(_) => false
  }

  /** A get: one more use of a context with room; with all full a new context with one use. */
  predicate Got(row: Row, row': Row, cap: nat, n: Context) {
    if n in row then row[n] < cap && row' == row[n := row[n] + 1]
    else Full(row, cap) && row' == row[n := 1]
  }

  function GiveBack(row: Row, n: Context, unregisters: bool): Row
    requires n in row && row[n] > 0
  {
    if row[n] == 1 && unregisters then row - {n} else row[n := row[n] - 1]
  }

  function RowUses(row: Row, n: Context): nat {
    if n in row then row[n] else 0
  }

  /** `total` uses, and every context but `last` is full. */
  ghost predicate Packed(row: Row, cap: nat, total: nat) {
    if total == 0 then row == map[]
    else exists last :: PackedBut(row, cap, total, last)
  }

  ghost predicate PackedBut(row: Row, cap: nat, total: nat, last: Context) {
    && last in row && 1 <= row[last] <= cap
    && (forall n | n in row && n != last :: row[n] == cap)
    && total == (|row| - 1) * cap + row[last]
  }

  lemma GetKeepsPacked(row: Row, row': Row, cap: nat, n: Context, total: nat)
    requires cap >= 1 && Packed(row, cap, total) && Got(row, row', cap, n)
    ensures Packed(row', cap, total + 1)
  {
    if total == 0 {
      assert |row'| == 1;
      assert PackedBut(row', cap, 1, n);
    } else {
      var last :| PackedBut(row, cap, total, last);
      if n in row {
        assert n == last;
        assert row'.Keys == row.Keys;
        assert |row'| == |row'.Keys| == |row.Keys| == |row|;
        assert PackedBut(row', cap, total + 1, last);
      } else {
        assert row[last] == cap;
        assert row'.Keys == row.Keys + {n};
        assert |row'| == |row'.Keys| == |row.Keys| + 1 == |row| + 1;
        assert |row| * cap == (|row| - 1) * cap + cap;
        assert PackedBut(row', cap, total + 1, n);
      }
    }
  }

  ghost predicate GetStep(row: Row, row': Row, cap: nat) {
    exists n :: Got(row, row', cap, n)
  }

  /** A run of gets on one row, from the empty row. */
  ghost predicate GetRun(rows: seq<Row>, cap: nat) {
    && rows != [] && rows[0] == map[]
    && forall i | 0 <= i < |rows| - 1 :: GetStep(rows[i], rows[i + 1], cap)
  }

  /** A get goes on with a run. */
  lemma GetRunGoesOn(rows: seq<Row>, row: Row, cap: nat, n: Context)
    requires GetRun(rows, cap) && Got(rows[|rows| - 1], row, cap, n)
    ensures GetRun([map[]], cap) && GetRun(rows + [row], cap)
  {
    var more := rows + [row];
    forall i | 0 <= i < |more| - 1 ensures GetStep(more[i], more[i + 1], cap) {
      if i < |rows| - 1 { assert GetStep(rows[i], rows[i + 1], cap); }
    }
  }

  lemma {:induction false} GetRunIsPacked(rows: seq<Row>, cap: nat, k: nat)
    requires cap >= 1 && GetRun(rows, cap) && k < |rows|
    ensures Packed(rows[k], cap, k)
  {
    if k > 0 {
      GetRunIsPacked(rows, cap, k - 1);
      assert GetStep(rows[k - 1], rows[(k - 1) + 1], cap);
      var n :| Got(rows[k - 1], rows[k], cap, n);
      GetKeepsPacked(rows[k - 1], rows[k], cap, n, k - 1);
    }
  }

  lemma MulOrder(a: int, b: int, k: nat)
    ensures a <= b ==> a * k <= b * k
    ensures (a + 1) * k == a * k + k
  {
    if a <= b { assert b * k == a * k + (b - a) * k; }
  }

  lemma CeilingIs(c: int, n: int, cap: int)
    requires cap >= 1 && c * cap - cap < n <= c * cap
    ensures (n + cap - 1) / cap == c
  {
    var q, r := (n + cap - 1) / cap, (n + cap - 1) % cap;
    assert q * cap + r == n + cap - 1;
    MulOrder(q + 1, c, cap);
    MulOrder(c + 1, q, cap);
    MulOrder(q, c, cap);
    MulOrder(c, q, cap);
  }

  /** Gets without puts use the least possible number of contexts: `n` gets use n / cap rounded up. */
  lemma GetRunUsesCeiling(rows: seq<Row>, cap: nat)
    requires cap >= 1 && GetRun(rows, cap)
    ensures var n := |rows| - 1; |rows[n]| == (n + cap - 1) / cap
  {
    var n := |rows| - 1;
    GetRunIsPacked(rows, cap, n);
    var row := rows[n];
    if n == 0 {
      CeilingIs(0, 0, cap);
    } else {
      var last :| PackedBut(row, cap, n, last);
      MulOrder(|row| - 1, |row|, cap);
      CeilingIs(|row|, n, cap);
    }
  }

  // ----- the pool -----

  /** The lowest number among the pool contexts with the fewest uses. */
  ghost predicate LowestLeast(usage: Row, size: nat, m: nat) {
    && m < size && Pooled(m) in usage
    && (forall j: nat | j < size :: Pooled(j) in usage && usage[Pooled(m)] <= usage[Pooled(j)])
    && (forall j: nat | j < m :: usage[Pooled(m)] < usage[Pooled(j)])
  }

  /** The uses of any two pool contexts differ by at most `spread`. */
  ghost predicate Even(usage: Row, size: nat, spread: nat) {
    && (forall n :: n in usage <==> n.Pooled? && n.index < size)
    && (forall a, b | a in usage && b in usage :: usage[a] - usage[b] <= spread)
  }

  ghost predicate PoolStep(usage: Row, usage': Row, size: nat) {
    exists m: nat :: LowestLeast(usage, size, m) && usage' == usage[Pooled(m) := usage[Pooled(m)] + 1]
  }

  /** Gets never widen the spread of a pool beyond what it was, or one. */
  lemma {:induction false} PoolGetsStayEven(rows: seq<Row>, size: nat, spread: nat, k: nat)
    requires k < |rows| && forall i | 0 <= i < |rows| - 1 :: PoolStep(rows[i], rows[i + 1], size)
    requires spread >= 1 && Even(rows[0], size, spread)
    ensures Even(rows[k], size, spread)
    ensures forall i: nat, j: nat | i < size && j < size ::
              Pooled(i) in rows[k] && Pooled(j) in rows[k] && rows[k][Pooled(i)] - rows[k][Pooled(j)] <= spread
  {
    if k > 0 {
      PoolGetsStayEven(rows, size, spread, k - 1);
      assert PoolStep(rows[k - 1], rows[(k - 1) + 1], size);
      var m: nat :| LowestLeast(rows[k - 1], size, m)
                      && rows[k] == rows[k - 1][Pooled(m) := rows[k - 1][Pooled(m)] + 1];
      var before := rows[k - 1];
      forall a | a in before ensures before[Pooled(m)] <= before[a] { assert a == Pooled(a.index); }
    }
  }

  /** The pool's uses and what of it is registered. */
  datatype PoolState = PoolState(usage: Row, registered: set<Context>)

  /** A get: one more use of the lowest numbered least used context `m`, which is registered first if it is unused;
      nothing when that fails, as it must for a context that still is registered. */
  ghost predicate PoolGet(p: PoolState, p': PoolState, size: nat, m: nat, granted: bool) {
    && LowestLeast(p.usage, size, m)
    && (granted ==> p.usage[Pooled(m)] > 0 || Pooled(m) !in p.registered)
    && p' == if granted then PoolState(p.usage[Pooled(m) := p.usage[Pooled(m)] + 1], p.registered + {Pooled(m)}) else p
  }

  /** A put: one use less, and the context is unregistered with its last use unless that fails. */
  predicate PoolPut(p: PoolState, p': PoolState, name: Context, unregisters: bool) {
    && name in p.usage && p.usage[name] > 0
    && p'.usage == p.usage[name := p.usage[name] - 1]
    && p'.registered == if p.usage[name] == 1 && unregisters then p.registered - {name} else p.registered
  }

  ghost predicate PoolMove(p: PoolState, p': PoolState, size: nat) {
    || (exists m: nat, granted :: PoolGet(p, p', size, m, granted))
    || (exists name, unregisters :: PoolPut(p, p', name, unregisters))
  }

  lemma GetsAndPutsAreMoves(p: PoolState, p': PoolState, size: nat, m: nat, granted: bool, name: Context, b: bool)
    requires PoolGet(p, p', size, m, granted) || PoolPut(p, p', name, b)
    ensures PoolMove(p, p', size)
  {
  }

  /** Unused, and yet registered: its last release did not unregister it. */
  predicate LeftOver(p: PoolState, c: Context) {
    c in p.usage && p.usage[c] == 0 && c in p.registered
  }

  /** A context that is left over once is left over for ever, so no get ever returns it; and while it is the lowest
      numbered least used one, no get succeeds. */
  lemma {:induction false} LeftOverForEver(ps: seq<PoolState>, size: nat, c: Context, k: nat)
    requires k < |ps| && forall i | 0 <= i < |ps| - 1 :: PoolMove(ps[i], ps[i + 1], size)
    requires LeftOver(ps[0], c)
    ensures LeftOver(ps[k], c)
    ensures forall p', m: nat :: PoolGet(ps[k], p', size, m, true) ==> Pooled(m) != c
    ensures forall p', m: nat, granted ::
              LowestLeast(ps[k].usage, size, c.index) && c.Pooled? && PoolGet(ps[k], p', size, m, granted) ==>
              !granted && p' == ps[k]
  {
    if k > 0 {
      LeftOverForEver(ps, size, c, k - 1);
      assert PoolMove(ps[k - 1], ps[(k - 1) + 1], size);
    }
    forall p', m: nat, granted |
      c.Pooled? && LowestLeast(ps[k].usage, size, c.index) && PoolGet(ps[k], p', size, m, granted)
      ensures m == c.index
    { OneLowest(ps[k].usage, size, m, c.index); }
  }

  lemma OneLowest(usage: Row, size: nat, m: nat, m': nat)
    requires LowestLeast(usage, size, m) && LowestLeast(usage, size, m')
    ensures m == m'
  {
  }

  // ----- contexts per group -----

  type Groups = map<nat, Row>

  function RowOf(c: Groups, g: nat): Row {
    if g in c then c[g] else map[]
  }

  /** A row has its own group's contexts, within their capacity. */
  predicate RowOk(row: Row, g: nat, cap: nat) {
    forall n | n in row :: n.OfGroup? && n.group == g && row[n] <= cap
  }

  /** Every row is in order, and exactly the contexts in the rows are registered. */
  ghost predicate GroupsOk(c: Groups, registered: set<Context>, cap: nat) {
    && (forall g: nat :: RowOk(RowOf(c, g), g, cap))
    && (forall n :: n in registered <==> n.OfGroup? && n in RowOf(c, n.group))
  }

  function GroupUses(c: Groups, n: Context): nat {
    if n.OfGroup? then RowUses(RowOf(c, n.group), n) else 0
  }

  /** A new row with its own group's contexts, all within capacity, and just those of them registered. */
  lemma UpdateRow(c: Groups, registered: set<Context>, cap: nat, g: nat, row: Row, registered': set<Context>)
    requires GroupsOk(c, registered, cap)
    requires RowOk(row, g, cap)
    requires forall n :: n in registered' <==> if n.OfGroup? && n.group == g then n in row else n in registered
    ensures GroupsOk(c[g := row], registered', cap)
  {
    var c' := c[g := row];
    forall h: nat ensures RowOk(RowOf(c', h), h, cap) {
      assert RowOk(RowOf(c, h), h, cap);
      assert RowOf(c', h) == if h == g then row else RowOf(c, h);
    }
  }

  lemma UsesAfterUpdate(c: Groups, g: nat, name: Context, x: nat)
    requires name.OfGroup? && name.group == g
    ensures forall n :: GroupUses(c[g := RowOf(c, g)[name := x]], n) == if n == name then x else GroupUses(c, n)
  {
    var c' := c[g := RowOf(c, g)[name := x]];
    forall n ensures GroupUses(c', n) == if n == name then x else GroupUses(c, n) {
      if n.OfGroup? { assert RowOf(c', n.group) == if n.group == g then RowOf(c, g)[name := x] else RowOf(c, n.group); }
    }
  }

  lemma SomeGroup(s: set<nat>)
    ensures s == {} || exists g: nat :: g in s
  {
    assert (forall g: nat :: g !in s) ==> s == {};
  }

  class AnaGrpBdevsPerCluster {
    const bdevsPerCluster: nat
    var clusters: Groups
    /** The contexts that are registered in SPDK. */
    var registered: set<Context>

    constructor (perCluster: nat)
      requires perCluster >= 1
      ensures Valid() && clusters == map[] && registered == {} && bdevsPerCluster == perCluster
    {
      bdevsPerCluster, clusters, registered := perCluster, map[], {};
    }

    ghost predicate Valid()
      reads this
    {
      bdevsPerCluster >= 1 && GroupsOk(clusters, registered, bdevsPerCluster)
    }

    ghost function Uses(n: Context): nat
      reads this
    {
      GroupUses(clusters, n)
    }

    /** The lowest numbered context of the group that is free. */
    method AllocClusterName(g: nat) returns (name: Context)
      requires g in clusters
      ensures name.OfGroup? && name.group == g && FirstFree(clusters[g], name)
    {
      var names := (y: nat) => OfGroup(g, y);
      var x := LowestFree(names, clusters[g].Keys);
      name := OfGroup(g, x);
      assert |clusters[g].Keys| == |clusters[g]|;
      forall y: nat | y < x ensures OfGroup(g, y) in clusters[g] { assert names(y) in clusters[g].Keys; }
    }

    /** A context for one more block device of group `g`; none when a new one is needed and SPDK does not
        register it. */
    method GetCluster(g: nat, registers: bool) returns (r: Option<Context>)
      requires Valid()
      modifies this
      ensures Valid()
      ensures r.None? <==> Full(RowOf(old(clusters), g), bdevsPerCluster) && !registers
      ensures clusters == old(clusters)[g := RowOf(clusters, g)]
      ensures r.None? ==> registered == old(registered) && RowOf(clusters, g) == RowOf(old(clusters), g)
      ensures r.Some? ==> Got(RowOf(old(clusters), g), RowOf(clusters, g), bdevsPerCluster, r.value)
      ensures r.Some? ==> r.value.OfGroup? && r.value.group == g && registered == old(registered) + {r.value}
      ensures r.Some? && r.value !in RowOf(old(clusters), g) ==> FirstFree(RowOf(old(clusters), g), r.value)
      ensures forall n :: Uses(n) == old(Uses(n)) + if r == Some(n) then 1 else 0
    {
      assert RowOk(RowOf(clusters, g), g, bdevsPerCluster);
      UpdateRow(clusters, registered, bdevsPerCluster, g, RowOf(clusters, g), registered);
      clusters := clusters[g := RowOf(clusters, g)];
      ghost var row := clusters[g];
      assert row == RowOf(clusters, g);
      r := FindRoom(clusters[g], bdevsPerCluster);
      if r.None? {
        var name := AllocClusterName(g);
        if registers {
          assert name !in registered;
          UpdateRow(clusters, registered, bdevsPerCluster, g, row[name := 1], registered + {name});
          registered := registered + {name};
          clusters := clusters[g := clusters[g][name := 1]];
          assert clusters == old(clusters)[g := row[name := 1]];
          UsesAfterUpdate(old(clusters), g, name, 1);
          r := Some(name);
        }
      } else {
        var name := r.value;
        UpdateRow(clusters, registered, bdevsPerCluster, g, row[name := row[name] + 1], registered);
        clusters := clusters[g := clusters[g][name := clusters[g][name] + 1]];
        assert clusters == old(clusters)[g := row[name := row[name] + 1]];
        UsesAfterUpdate(old(clusters), g, name, row[name] + 1);
      }
    }

    /** Gives back one use; the last use frees the context. False when SPDK does not unregister it. */
    method PutCluster(name: Context, unregisters: bool) returns (ok: bool)
      requires Valid() && Uses(name) > 0
      modifies this
      ensures Valid()
      ensures ok <==> old(Uses(name)) > 1 || unregisters
      ensures Uses(name) == old(Uses(name)) - 1 && forall n | n != name :: Uses(n) == old(Uses(n))
      ensures registered == if Uses(name) == 0 && ok then old(registered) - {name} else old(registered)
    {
      var todo := clusters.Keys;
      while todo != {}
        invariant unchanged(this) && todo <= clusters.Keys && name.group in todo
      {
        assert exists g: nat :: g in todo by { SomeGroup(todo); }
        var g: nat :| g in todo;
        todo := todo - {g};
        if name in clusters[g] {
          ghost var row := RowOf(clusters, g);
          assert RowOk(row, g, bdevsPerCluster);
          UpdateRow(clusters, registered, bdevsPerCluster, g, GiveBack(row, name, unregisters),
                    if row[name] == 1 && unregisters then registered - {name} else registered);
          assert clusters[g][name] - 1 >= 0;
          clusters := clusters[g := clusters[g][name := clusters[g][name] - 1]];
          if clusters[g][name] == 0 {
            if !unregisters { return false; }
            registered := registered - {name};
            clusters := clusters[g := clusters[g] - {name}];
            assert clusters[g] == GiveBack(row, name, unregisters);
            assert clusters == old(clusters)[g := GiveBack(row, name, unregisters)];
          }
          return true;
        }
      }
      assert false;
    }
  }

  /** The first context of a row with room for one more use. */
  method FindRoom(row: Row, cap: nat) returns (r: Option<Context>)
    ensures r.None? <==> Full(row, cap)
    ensures r.Some? ==> r.value in row && row[r.value] < cap
  {
    var todo := row.Keys;
    while todo != {}
      invariant todo <= row.Keys
      invariant forall n | n in row && n !in todo :: row[n] >= cap
    {
      var n :| n in todo;
      todo := todo - {n};
      if row[n] < cap { return Some(n); }
    }
    r := None;
  }

  // ----- contexts regardless of the group -----

  class FlatBdevsPerCluster {
    const flatBdevsPerCluster: nat
    var flatClusters: Row
    var registered: set<Context>

    constructor (perCluster: nat)
      requires perCluster >= 1
      ensures Valid() && flatClusters == map[] && registered == {} && flatBdevsPerCluster == perCluster
    {
      flatBdevsPerCluster, flatClusters, registered := perCluster, map[], {};
    }

    ghost predicate Valid()
      reads this
    {
      && flatBdevsPerCluster >= 1 && registered == flatClusters.Keys
      && forall n | n in flatClusters :: flatClusters[n] <= flatBdevsPerCluster
    }

    ghost function Uses(n: Context): nat
      reads this
    {
      RowUses(flatClusters, n)
    }

    method AllocClusterName() returns (name: Context)
      ensures name.Flat? && FirstFree(flatClusters, name)
    {
      var names := (y: nat) => Flat(y);
      var x := LowestFree(names, flatClusters.Keys);
      name := Flat(x);
      assert |flatClusters.Keys| == |flatClusters|;
      forall y: nat | y < x ensures Flat(y) in flatClusters { assert names(y) in flatClusters.Keys; }
    }

    method GetCluster(registers: bool) returns (r: Option<Context>)
      requires Valid()
      modifies this
      ensures Valid()
      ensures r.None? <==> Full(old(flatClusters), flatBdevsPerCluster) && !registers
      ensures r.None? ==> unchanged(this)
      ensures r.Some? ==> registered == old(registered) + {r.value}
      ensures r.Some? ==> Got(old(flatClusters), flatClusters, flatBdevsPerCluster, r.value)
      ensures r.Some? && r.value !in old(flatClusters) ==> r.value.Flat? && FirstFree(old(flatClusters), r.value)
      ensures forall n :: Uses(n) == old(Uses(n)) + if r == Some(n) then 1 else 0
    {
      r := FindRoom(flatClusters, flatBdevsPerCluster);
      if r.None? {
        var name := AllocClusterName();
        if registers {
          assert name !in registered;
          registered := registered + {name};
          flatClusters := flatClusters[name := 1];
          r := Some(name);
        }
      } else {
        flatClusters := flatClusters[r.value := flatClusters[r.value] + 1];
      }
    }

    method PutCluster(name: Context, unregisters: bool) returns (ok: bool)
      requires Valid() && Uses(name) > 0
      modifies this
      ensures Valid()
      ensures ok <==> old(Uses(name)) > 1 || unregisters
      ensures flatClusters == GiveBack(old(flatClusters), name, unregisters)
      ensures registered == if Uses(name) == 0 && ok then old(registered) - {name} else old(registered)
    {
      assert name in flatClusters;
      assert flatClusters[name] - 1 >= 0;
      flatClusters := flatClusters[name := flatClusters[name] - 1];
      if flatClusters[name] == 0 {
        if !unregisters { return false; }
        registered := registered - {name};
        flatClusters := flatClusters - {name};
        assert flatClusters == old(flatClusters) - {name};
      }
      ok := true;
    }
  }

  // ----- a fixed pool of contexts -----

  class ClusterPoolAllocator {
    const poolSize: nat
    var usageCounts: Row
    var registered: set<Context>

    constructor (size: nat)
      requires size >= 1
      ensures Valid() && poolSize == size && registered == {} && forall n :: Uses(n) == 0
    {
      poolSize, registered, usageCounts := size, {}, map[];
      new;
      for i := 0 to size
        invariant registered == {} && forall n :: n in usageCounts <==> n.Pooled? && n.index < i
        invariant forall n | n in usageCounts :: usageCounts[n] == 0
      {
        usageCounts := usageCounts[Pooled(i) := 0];
      }
    }

    ghost predicate Valid()
      reads this
    {
      && poolSize >= 1
      && (forall n :: n in usageCounts <==> n.Pooled? && n.index < poolSize)
      && (forall n | n in usageCounts && usageCounts[n] > 0 :: n in registered)
    }

    ghost function Uses(n: Context): nat
      reads this
    {
      RowUses(usageCounts, n)
    }

    ghost function State(): PoolState
      reads this
    {
      PoolState(usageCounts, registered)
    }

    method LeastUsed() returns (m: nat)
      requires Valid()
      ensures LowestLeast(usageCounts, poolSize, m)
    {
      m := 0;
      for i := 1 to poolSize
        invariant m < i && Pooled(m) in usageCounts
        invariant forall j: nat | j < i :: usageCounts[Pooled(m)] <= usageCounts[Pooled(j)]
        invariant forall j: nat | j < m :: usageCounts[Pooled(m)] < usageCounts[Pooled(j)]
      {
        if usageCounts[Pooled(i)] < usageCounts[Pooled(m)] { m := i; }
      }
    }

    /** The lowest numbered context with the fewest uses. None when it must be registered and SPDK refuses,
        as it does for one that an earlier failure left registered. */
    method GetCluster(registers: bool) returns (r: Option<Context>, ghost m: nat)
      requires Valid()
      modifies this
      ensures Valid() && usageCounts.Keys == old(usageCounts).Keys
      ensures r.None? ==> unchanged(this)
      ensures PoolGet(old(State()), State(), poolSize, m, r.Some?)
      ensures r == if old(usageCounts)[Pooled(m)] == 0 && (!registers || Pooled(m) in old(registered)) then None
                   else Some(Pooled(m))
      ensures registers && r.None? ==> exists n :: n in old(registered) && old(Uses(n)) == 0
      ensures r.Some? ==> usageCounts == old(usageCounts)[r.value := old(usageCounts)[r.value] + 1]
      ensures r.Some? ==> registered == old(registered) + {r.value}
      ensures forall n :: Uses(n) == old(Uses(n)) + if r == Some(n) then 1 else 0
    {
      var i := LeastUsed();
      m := i;
      var least := Pooled(i);
      if usageCounts[least] == 0 {
        if !registers || least in registered { return None, i; }
        registered := registered + {least};
      }
      usageCounts := usageCounts[least := usageCounts[least] + 1];
      r := Some(least);
    }

    method PutCluster(name: Context, unregisters: bool) returns (ok: bool)
      requires Valid() && Uses(name) > 0
      modifies this
      ensures Valid()
      ensures ok <==> old(Uses(name)) > 1 || unregisters
      ensures PoolPut(old(State()), State(), name, unregisters)
    {
      assert name in usageCounts;
      assert usageCounts[name] > 0;
      usageCounts := usageCounts[name := usageCounts[name] - 1];
      if usageCounts[name] == 0 {
        if !unregisters { return false; }
        registered := registered - {name};
      }
      ok := true;
    }
  }

  // ----- block devices -----

  /** The configured way to allocate contexts. */
  datatype Strategy =
    | PerGroup(a: AnaGrpBdevsPerCluster)
    | AnyGroup(f: FlatBdevsPerCluster)
    | Pool(p: ClusterPoolAllocator)
  {
    ghost function Repr(): set<object> {
      match this
      case PerGroup(a) => {a}
      case AnyGroup(f) => {f}
      case Pool(p) => {p}
    }

    ghost predicate Valid()
      reads Repr()
    {
      match this
      case PerGroup(a) => a.Valid()
      case AnyGroup(f) => f.Valid()
      case Pool(p) => p.Valid()
    }

    ghost function Uses(n: Context): nat
      reads Repr()
    {
      match this
      case PerGroup(a) => a.Uses(n)
      case AnyGroup(f) => f.Uses(n)
      case Pool(p) => p.Uses(n)
    }

    ghost function Registered(): set<Context>
      reads Repr()
    {
      match this
      case PerGroup(a) => a.registered
      case AnyGroup(f) => f.registered
      case Pool(p) => p.registered
    }

    /** Exactly the contexts in use are registered. It holds as long as SPDK never refuses to unregister. */
    ghost predicate RegisteredExactly()
      reads Repr()
    {
      forall n :: n in Registered() <==> Uses(n) > 0
    }

    /** What is in use is registered. */
    lemma UsedIsRegistered(n: Context)
      requires Valid() && Uses(n) > 0
      ensures n in Registered()
    {
    }

    /** Every context whose uses are limited keeps to the limit. */
    ghost function Capacity(): Option<nat> {
      match this
      case PerGroup(a) => Some(a.bdevsPerCluster)
      case AnyGroup(f) => Some(f.flatBdevsPerCluster)
      case Pool(_) => None
    }

    lemma WithinCapacity(n: Context)
      requires Valid()
      ensures Capacity().Some? ==> Uses(n) <= Capacity().value
    {
      if PerGroup? && n.OfGroup? { assert RowOk(RowOf(a.clusters, n.group), n.group, a.bdevsPerCluster); }
    }

    method GetCluster(g: nat, registers: bool) returns (r: Option<Context>)
      requires Valid()
      modifies Repr()
      ensures Valid()
      ensures Registered() == old(Registered()) + if r.Some? then {r.value} else {}
      ensures r.Some? && PerGroup? ==> r.value.OfGroup? && r.value.group == g
      ensures registers && r.None? ==> exists n :: n in old(Registered()) && old(Uses(n)) == 0
      ensures forall n :: Uses(n) == old(Uses(n)) + if r == Some(n) then 1 else 0
      ensures old(RegisteredExactly()) ==> RegisteredExactly()
    {
      match this
      case PerGroup(a) => r := a.GetCluster(g, registers);
      case AnyGroup(f) => r := f.GetCluster(registers);
      case Pool(p) =>
        ghost var m;
        r, m := p.GetCluster(registers);
      ExactWhileUsed(r);
    }

    twostate lemma ExactWhileUsed(r: Option<Context>)
      requires Registered() == old(Registered()) + if r.Some? then {r.value} else {}
      requires forall n :: Uses(n) == old(Uses(n)) + if r == Some(n) then 1 else 0
      ensures old(RegisteredExactly()) ==> RegisteredExactly()
    {
    }

    method PutCluster(name: Context, unregisters: bool) returns (ok: bool)
      requires Valid() && Uses(name) > 0
      modifies Repr()
      ensures Valid()
      ensures ok <==> old(Uses(name)) > 1 || unregisters
      ensures forall n :: Uses(n) == old(Uses(n)) - if n == name then 1 else 0
      ensures Registered() == if Uses(name) == 0 && ok then old(Registered()) - {name} else old(Registered())
      ensures old(RegisteredExactly()) && ok ==> RegisteredExactly()
    {
      match this
      case PerGroup(a) => ok := a.PutCluster(name, unregisters);
      case AnyGroup(f) => ok := f.PutCluster(name, unregisters);
      case Pool(p) => ok := p.PutCluster(name, unregisters);
    }
  }

  /** The live block devices of one context. */
  function Users(live: set<string>, cluster: map<string, Context>, n: Context): set<string> {
    set b | b in live && b in cluster && cluster[b] == n
  }

  lemma UsersAfterCreate(live: set<string>, cluster: map<string, Context>, b: string, c: Context)
    requires b !in live
    ensures forall n :: |Users(live + {b}, cluster[b := c], n)| == |Users(live, cluster, n)| + if n == c then 1 else 0
  {
    forall n ensures |Users(live + {b}, cluster[b := c], n)| == |Users(live, cluster, n)| + if n == c then 1 else 0 {
      var before := Users(live, cluster, n);
      assert Users(live + {b}, cluster[b := c], n) == if n == c then before + {b} else before;
    }
  }

  lemma UsersAfterDelete(live: set<string>, cluster: map<string, Context>, b: string)
    requires b in live && b in cluster
    ensures forall n :: |Users(live - {b}, cluster, n)| == |Users(live, cluster, n)| - if n == cluster[b] then 1 else 0
  {
    forall n ensures |Users(live - {b}, cluster, n)| == |Users(live, cluster, n)| - if n == cluster[b] then 1 else 0 {
      var before := Users(live, cluster, n);
      assert Users(live - {b}, cluster, n) == if n == cluster[b] then before - {b} else before;
    }
  }

  datatype BdevOutcome = Created | Deleted | Failed | Raised

  class Bdevs {
    const allocator: Strategy
    /** The block devices that exist. */
    var bdevParams: set<string>
    /** The context of every block device that exists or ever existed. */
    var bdevCluster: map<string, Context>

    constructor (s: Strategy)
      requires s.Valid() && forall n :: s.Uses(n) == 0
      ensures Valid() && allocator == s && bdevParams == {}
    {
      allocator, bdevParams, bdevCluster := s, {}, map[];
    }

    /** Every live block device has a context, and the uses of every context are its live block devices, and
        one more for a context `extra` that was taken for a block device about to be created. */
    ghost predicate Balanced(extra: Option<Context>)
      reads this, allocator.Repr()
    {
      && this !in allocator.Repr() && allocator.Valid()
      && (forall b | b in bdevParams :: b in bdevCluster)
      && (forall n :: allocator.Uses(n) == |Users(bdevParams, bdevCluster, n)| + if extra == Some(n) then 1 else 0)
    }

    ghost predicate Valid()
      reads this, allocator.Repr()
    {
      Balanced(None)
    }

    /** Creates a block device on a context taken for it, or gives the context back. */
    method Attach(name: string, c: Context, creates: bool, unregisters: bool) returns (r: BdevOutcome)
      requires Balanced(Some(c))
      modifies this, allocator.Repr()
      ensures Valid()
      ensures if creates && name !in old(bdevParams) then r.Created? else r.Failed? || (r.Raised? && !unregisters)
      ensures bdevParams == if r.Created? then old(bdevParams) + {name} else old(bdevParams)
      ensures bdevCluster == if r.Created? then old(bdevCluster)[name := c] else old(bdevCluster)
      ensures old(allocator.RegisteredExactly()) && !r.Raised? ==> allocator.RegisteredExactly()
    {
      if !creates || name in bdevParams {
        var ok := allocator.PutCluster(c, unregisters);
        return if ok then Failed else Raised;
      }
      UsersAfterCreate(bdevParams, bdevCluster, name, c);
      bdevCluster := bdevCluster[name := c];
      bdevParams := bdevParams + {name};
      r := Created;
    }

    /** Creates block device `name` for group `g`. SPDK may refuse to register a new context, to create the
        block device, which gives the context back, or then to unregister it. */
    method CreateBdev(g: nat, name: string, registers: bool, creates: bool, unregisters: bool) returns (r: BdevOutcome)
      requires Valid()
      modifies this, allocator.Repr()
      ensures Valid()
      ensures !r.Deleted? && (r.Created? ==> creates && name !in old(bdevParams))
      ensures creates && name !in old(bdevParams) && registers && old(allocator.RegisteredExactly()) ==> r.Created?
      ensures r.Created? && allocator.PerGroup? ==>
                name in bdevCluster && bdevCluster[name].OfGroup? && bdevCluster[name].group == g
      ensures bdevParams == if r.Created? then old(bdevParams) + {name} else old(bdevParams)
      ensures if r.Created? then name in bdevCluster && bdevCluster == old(bdevCluster)[name := bdevCluster[name]]
              else bdevCluster == old(bdevCluster)
      ensures r.Raised? ==> !unregisters
      ensures old(allocator.RegisteredExactly()) && !r.Raised? ==> allocator.RegisteredExactly()
    {
      var c := allocator.GetCluster(g, registers);
      if c.None? { return Failed; }
      r := Attach(name, c.value, creates, unregisters);
    }

    /** Deletes a block device and gives its context back. */
    method DeleteBdev(name: string, deletes: bool, unregisters: bool) returns (r: BdevOutcome)
      requires Valid()
      modifies this, allocator.Repr()
      ensures Valid() && bdevCluster == old(bdevCluster)
      ensures bdevParams == if deletes then old(bdevParams) - {name} else old(bdevParams)
      ensures r.Deleted? || r.Failed?
      ensures deletes && name in old(bdevParams) && unregisters ==> r.Deleted?
      ensures r.Deleted? ==> deletes && name in old(bdevParams)
      ensures old(allocator.RegisteredExactly()) && unregisters ==> allocator.RegisteredExactly()
    {
      if !deletes || name !in bdevParams { return Failed; }
      UsersAfterDelete(bdevParams, bdevCluster, name);
      var c := bdevCluster[name];
      assert name in Users(bdevParams, bdevCluster, c);
      bdevParams := bdevParams - {name};
      var ok := allocator.PutCluster(c, unregisters);
      r := if ok then Deleted else Failed;
    }
  }
}
