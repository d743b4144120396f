/** The namespace requests that keep the load counters, and the automatic rebalancer that runs on them. */
module Rebalance {
  import opened Text
  import opened Loads

  /** Larger than any namespace ID or load. */
  const INVALID_LOAD_BALANCING_GROUP := 18446744073709551616

  /** What a request came to: `Unsaved` has taken effect here but was not persisted, `Raised` left through an
      exception half way. */
  datatype Outcome = Done | Refused | Unsaved | Raised

  /** The answers a change-group request gets from outside: whether the gateway is up, the groups the monitor
      lists by then, whether the namespace is in the shared state and owned by this gateway, and whether SPDK
      and the shared state accept the change. */
  datatype Answers = Answers(up: bool, grps: seq<int>, admitted: bool, spdk: bool, persisted: bool)

  function LoadsIn(subs: SubsLoads, g: int): map<string, int> {
    if g in subs then subs[g] else map[]
  }

  function Raise(subs: SubsLoads, g: int, q: string): SubsLoads {
    subs[g := LoadsIn(subs, g)[q := if q in LoadsIn(subs, g) then LoadsIn(subs, g)[q] + 1 else 1]]
  }

  function Lower(subs: SubsLoads, g: int, q: string): SubsLoads
    requires g in subs && q in subs[g]
  {
    subs[g := subs[g][q := subs[g][q] - 1]]
  }

  predicate GroupsKnown(grps: seq<int>, ns: NsLoads) {
    forall i | 0 <= i < |grps| :: grps[i] in ns
  }

  lemma AccountedAfterAdd(b: Books, n: Ns, g: int)
    requires Accounted(b) && n !in b.table && g in b.ns
    ensures Accounted(Books(b.table[n := g], b.ns[g := b.ns[g] + 1], Raise(b.subs, g, n.nqn)))
  {
    var t', ns', subs' := b.table[n := g], b.ns[g := b.ns[g] + 1], Raise(b.subs, g, n.nqn);
    forall h | h in ns' ensures ns'[h] == GroupLoad(t', h) { LoadsAfterAdd(b.table, n, g, h, n.nqn); }
    forall h, q | h in subs' && q in subs'[h] ensures subs'[h][q] == SubsysLoad(t', h, q) {
      LoadsAfterAdd(b.table, n, g, h, q);
      if h == g && q == n.nqn && (g !in b.subs || q !in b.subs[g]) { assert InBoth(b.table, g, q) == {}; }
    }
  }

  lemma AccountedAfterRemove(b: Books, n: Ns)
    requires Accounted(b) && n in b.table
    ensures var g := b.table[n];
            Accounted(Books(b.table - {n}, b.ns[g := b.ns[g] - 1], Lower(b.subs, g, n.nqn)))
  {
    var g := b.table[n];
    var t', ns', subs' := b.table - {n}, b.ns[g := b.ns[g] - 1], Lower(b.subs, g, n.nqn);
    forall h | h in ns' ensures ns'[h] == GroupLoad(t', h) { LoadsAfterRemove(b.table, n, h, n.nqn); }
    forall h, q | h in subs' && q in subs'[h] ensures subs'[h][q] == SubsysLoad(t', h, q) {
      LoadsAfterRemove(b.table, n, h, q);
    }
  }

  lemma AccountedAfterMove(b: Books, n: Ns, d: int)
    requires Accounted(b) && n in b.table && d in b.ns
    ensures var g := b.table[n];
            var less := b.ns[g := b.ns[g] - 1];
            Accounted(Books(b.table[n := d], less[d := less[d] + 1], Raise(Lower(b.subs, g, n.nqn), d, n.nqn)))
  {
    var g := b.table[n];
    var gone := Books(b.table - {n}, b.ns[g := b.ns[g] - 1], Lower(b.subs, g, n.nqn));
    AccountedAfterRemove(b, n);
    assert gone.table[n := d] == b.table[n := d];
    AccountedAfterAdd(gone, n, d);
  }

  /** Writing a zero where there is no entry keeps the counters right when the subsystem has nothing there. */
  lemma AccountedAfterZero(b: Books, g: int, q: string)
    requires Accounted(b) && SubsysLoad(b.table, g, q) == 0
    ensures Accounted(b.(subs := b.subs[g := LoadsIn(b.subs, g)[q := 0]]))
  {
  }

  lemma AccountedAfterTouch(b: Books, g: int)
    requires Accounted(b)
    ensures Accounted(b.(subs := b.subs[g := LoadsIn(b.subs, g)]))
  {
  }

  /** A recorded load is the true one, and no larger than the number of namespaces. */
  lemma RecordedLoad(b: Books, g: int, q: string)
    requires Accounted(b) && g in b.subs && q in b.subs[g]
    ensures b.subs[g][q] == SubsysLoad(b.table, g, q) <= |b.table|
  {
    GroupLoadsOfSubsystem(b.table, g, q);
  }

  /** A group whose load counter is not zero has an entry. */
  lemma LoadedGroupHasEntry(b: Books, g: int)
    requires Accounted(b) && g in b.ns && b.ns[g] != 0
    ensures g in b.subs
  {
    assert InGroup(b.table, g) != {};
    var n :| n in InGroup(b.table, g);
  }

  lemma MissingEntryIsZero(b: Books, g: int, q: string)
    requires Accounted(b) && ((g in b.ns && b.ns[g] == 0) || q !in LoadsIn(b.subs, g))
    ensures SubsysLoad(b.table, g, q) == 0
  {
    GroupLoadsOfSubsystem(b.table, g, q);
    if q !in LoadsIn(b.subs, g) { assert InBoth(b.table, g, q) == {}; }
  }

  /** Taking listed namespaces away without lowering the counters keeps them right only if none was there. */
  lemma DroppingBreaksAccounting(b: Books, gone: set<Ns>)
    requires Accounted(b)
    ensures Accounted(b.(table := b.table - gone)) <==> gone !! b.table.Keys
  {
    if gone !! b.table.Keys {
      assert b.table - gone == b.table;
    } else {
      var n :| n in gone && n in b.table;
      var g := b.table[n];
      assert InGroup(b.table - gone, g) <= InGroup(b.table, g) - {n};
      Subset(InGroup(b.table - gone, g), InGroup(b.table, g) - {n});
    }
  }

  /** The namespaces a failing create request takes off the list: the requested one, or without a requested
      ID every namespace of the subsystem. */
  function Dropped(t: Table, q: string, nsid: nat): set<Ns> {
    if nsid != 0 then {Ns(q, nsid)} else InSubsys(t, q)
  }

  lemma GroupLoadsOfSubsystem(t: Table, g: int, q: string)
    ensures SubsysLoad(t, g, q) <= GroupLoad(t, g) <= |t|
    ensures SubsysLoad(t, g, q) <= SubsysCount(t, q) <= |t|
  {
    Subset(InBoth(t, g, q), InGroup(t, g));
    Subset(InBoth(t, g, q), InSubsys(t, q));
    Subset(InGroup(t, g), t.Keys);
    Subset(InSubsys(t, q), t.Keys);
  }

  /** The books once SPDK has moved `n` to group `dest`, and whether an exception ended the update early. A
      namespace that is not listed counts as one of group 0. */
  function Moved(b: Books, n: Ns, dest: int): (Books, bool) {
    var g := if n in b.table then b.table[n] else 0;
    if g !in b.ns then (b, true) else
    var less := b.(ns := b.ns[g := b.ns[g] - 1], subs := b.subs[g := LoadsIn(b.subs, g)]);
    if n.nqn !in less.subs[g] then (less, true) else
    var gone := less.(subs := Lower(less.subs, g, n.nqn));
    if dest !in b.ns then (gone, true) else
    (Books(if n in b.table then b.table[n := dest] else b.table,
           gone.ns[dest := gone.ns[dest] + 1],
           Raise(gone.subs, dest, n.nqn)), false)
  }

  /** Moving keeps the counters right exactly for a listed namespace and a known group. (Or when an unlisted
      namespace "moves" from group 0 to group 0.) */
  lemma MovedCountedExactly(b: Books, n: Ns, dest: int)
    requires Accounted(b) && 0 in b.ns
    ensures n in b.table && dest in b.ns ==> !Moved(b, n, dest).1 && Moved(b, n, dest).0.table == b.table[n := dest]
    ensures Accounted(Moved(b, n, dest).0) <==>
            || (n in b.table && dest in b.ns)
            || (n !in b.table && dest == 0 && n.nqn in LoadsIn(b.subs, 0))
  {
    if n in b.table {
      ListedMove(b, n, dest);
    } else if n.nqn in LoadsIn(b.subs, 0) && dest == 0 {
      UnlistedNonMove(b, n);
    } else {
      WrongGroupLoad(Moved(b, n, dest).0, 0);
    }
  }

  lemma WrongGroupLoad(b: Books, g: int)
    requires g in b.ns && b.ns[g] != GroupLoad(b.table, g)
    ensures !Accounted(b)
  {
  }

  lemma ListedMove(b: Books, n: Ns, dest: int)
    requires Accounted(b) && n in b.table
    ensures Moved(b, n, dest).1 <==> dest !in b.ns
    ensures Accounted(Moved(b, n, dest).0) <==> dest in b.ns
  {
    var g := b.table[n];
    assert b.subs[g := b.subs[g]] == b.subs;
    if dest in b.ns {
      AccountedAfterMove(b, n, dest);
    } else {
      WrongGroupLoad(Moved(b, n, dest).0, g);
    }
  }

  lemma UnlistedNonMove(b: Books, n: Ns)
    requires n !in b.table && 0 in b.ns && n.nqn in LoadsIn(b.subs, 0)
    ensures Moved(b, n, 0) == (b, false)
  {
    var b' := Moved(b, n, 0).0;
    assert b'.ns == b.ns;
    assert b'.subs[0] == b.subs[0];
    assert b'.subs == b.subs;
  }

  /** One namespace of subsystem `q` ("0": of any) moved from group `g` to `dest`. */
  ghost predicate MovedOne(t: Table, t': Table, g: int, dest: int, q: string) {
    exists n :: n in t && t[n] == g && (n.nqn == q || q == "0") && t' == t[n := dest]
  }

  /** "0" stands for any subsystem, so it must not name one. */
  predicate NoneNamedZero(t: Table) {
    forall n | n in t :: n.nqn != "0"
  }

  /** When a group's check fires for a subsystem, moving any of its namespaces from there to a least loaded
      group is an automatic move. */
  lemma FiringMoves(t: Table, t': Table, grps: seq<int>, g: int, dest: int, q: string)
    requires grps != [] && g in grps && dest in grps && SubsysLoad(t, dest, q) == MinLoad(t, grps, q)
    requires CheckFires(t, grps, g, q) && NoneNamedZero(t) && MovedOne(t, t', g, dest, q)
    ensures AutoMove(t, t', grps)
  {
    FiringGap(SubsysLoad(t, g, q), MinLoad(t, grps, q), SubsysCount(t, q), |grps|);
    assert InBoth(t, g, q) != {};
    var m :| m in InBoth(t, g, q);
    assert q != "0";
    var n :| n in t && t[n] == g && n.nqn == q && t' == t[n := dest];
    assert IsMove(t, n, dest, grps);
  }

  /** The load is above the average `total / k`. */
  predicate AboveAverage(load: int, total: int, k: int) {
    load * k > total
  }

  /** One of the three criteria for moving a namespace to a group with load `destLoad`. */
  predicate Fit(load: int, destLoad: int, total: int, k: int) {
    var leTarget := (destLoad + 1) * k <= total;
    var loadLess := total < k && load > 1 && destLoad == 0;
    var loadEq := load - 1 == destLoad + 1;
    leTarget || loadEq || loadLess
  }

  lemma FiresWithLoads(t: Table, grps: seq<int>, g: int, q: string)
    requires grps != []
    ensures CheckFires(t, grps, g, q) <==>
            && AboveAverage(SubsysLoad(t, g, q), |InSubsys(t, q)|, |grps|)
            && Fit(SubsysLoad(t, g, q), MinLoad(t, grps, q), |InSubsys(t, q)|, |grps|)
  {
    FiresByParts(SubsysLoad(t, g, q), MinLoad(t, grps, q), SubsysCount(t, q), |grps|);
  }

  lemma FiresByParts(load: nat, min: nat, total: nat, k: nat)
    ensures Fires(load, min, total, k) <==> AboveAverage(load, total, k) && Fit(load, min, total, k)
  {
  }

  lemma MissingEntryIsQuiet(b: Books, grps: seq<int>, g: int, q: string)
    requires grps != [] && Accounted(b) && q !in LoadsIn(b.subs, g)
    ensures !CheckFires(b.table, grps, g, q)
  {
    MissingEntryIsZero(b, g, q);
  }

  /** No check of the group fires for the subsystems `qs`. */
  ghost predicate QuietFor(t: Table, grps: seq<int>, g: int, qs: set<string>)
    requires grps != []
  {
    forall p | p in qs :: !CheckFires(t, grps, g, p)
  }

  lemma QuietForOneMore(t: Table, grps: seq<int>, g: int, row: set<string>, names: set<string>, q: string)
    requires grps != [] && QuietFor(t, grps, g, row - names) && !CheckFires(t, grps, g, q)
    ensures QuietFor(t, grps, g, row - (names - {q}))
  {
  }

  lemma QuietRowIsQuiet(b: Books, grps: seq<int>, g: int, row: set<string>)
    requires grps != [] && Accounted(b) && row == LoadsIn(b.subs, g).Keys && QuietFor(b.table, grps, g, row - {})
    ensures forall p :: !CheckFires(b.table, grps, g, p)
  {
    forall p ensures !CheckFires(b.table, grps, g, p) {
      if p in row { assert p in row - {}; } else { MissingEntryIsQuiet(b, grps, g, p); }
    }
  }

  lemma RowsKept(subs: SubsLoads, subs': SubsLoads, chosen: int, q: string, g: int)
    requires subs' == subs || subs' == subs[chosen := LoadsIn(subs, chosen)[q := 0]]
    requires g in subs
    ensures g in subs' && subs[g].Keys <= subs'[g].Keys
  {
  }

  /** Moving any namespace out of a group that is not listed to a least loaded one is an automatic move. */
  lemma LeavingMoves(t: Table, t': Table, grps: seq<int>, g: int, dest: int, q: string)
    requires g !in grps && LeastLoaded(t, grps, dest) && MovedOne(t, t', g, dest, q)
    ensures AutoMove(t, t', grps)
  {
    var n :| n in t && t[n] == g && t' == t[n := dest];
    assert IsMove(t, n, dest, grps);
  }

  /** Group 0 has a counter from the start; what is listed exists in SPDK and has an ID and a subsystem. */
  predicate Sound(t: Table, ns: NsLoads, spdk: set<Ns>) {
    0 in ns && forall n | n in t :: n in spdk && n.nsid != 0 && n.nqn != ""
  }

  /** The worker's group is optimized here, no group outside the list has namespaces, and no group outside the
      list is optimized here. */
  predicate RegularMode(b: Books, grps: seq<int>, worker: int, optimized: map<int, bool>) {
    match b
    case Books(_, ns, _) =>
      && worker in optimized && optimized[worker]
      && forall g | g in optimized :: g in grps || (!optimized[g] && g in ns && ns[g] == 0)
  }

  lemma MoveKeepsNames(t: Table, t': Table, grps: seq<int>)
    requires AutoMove(t, t', grps)
    ensures t'.Keys == t.Keys && |t'| == |t| && (NoneNamedZero(t) ==> NoneNamedZero(t'))
    ensures Measure(t', grps) < Measure(t, grps)
  {
    MoveDecreases(t, t', grps);
    MoveDecreasesMeasure(t, t', grps);
    assert |t'| == |t'.Keys|;
  }

  lemma RegularModeKept(b: Books, b': Books, grps: seq<int>, worker: int, optimized: map<int, bool>)
    requires Accounted(b) && Accounted(b') && b'.ns.Keys == b.ns.Keys
    requires b'.table == b.table || AutoMove(b.table, b'.table, grps)
    ensures RegularMode(b, grps, worker, optimized) ==> RegularMode(b', grps, worker, optimized)
  {
    forall g | g in b.ns && g !in grps && b.ns[g] == 0 ensures b'.ns[g] == 0 {
      if b'.table != b.table {
        var n, d :| IsMove(b.table, n, d, grps) && b'.table == b.table[n := d];
        LoadsAfterMove(b.table, n, d, g, n.nqn);
      }
    }
  }

  /** No check of a listed group that is optimized here and is one of `done` fires, for any subsystem. */
  ghost predicate Quiet(t: Table, grps: seq<int>, optimized: map<int, bool>, done: set<int>) {
    forall g, q | g in done && g in optimized && optimized[g] && g in grps :: !CheckFires(t, grps, g, q)
  }

  lemma QuietMore(t: Table, grps: seq<int>, optimized: map<int, bool>, done: set<int>, g: int)
    requires Quiet(t, grps, optimized, done)
    requires g in optimized && optimized[g] && g in grps ==> forall q :: !CheckFires(t, grps, g, q)
    ensures Quiet(t, grps, optimized, done + {g})
  {
  }

  /** Every group of `done` that is optimized here is listed. */
  predicate DoneListed(grps: seq<int>, optimized: map<int, bool>, done: set<int>) {
    forall g | g in done :: g in optimized && (optimized[g] ==> g in grps)
  }

  lemma ListedMore(grps: seq<int>, optimized: map<int, bool>, done: set<int>, g: int)
    requires DoneListed(grps, optimized, done) && g in optimized && (optimized[g] ==> g in grps)
    ensures DoneListed(grps, optimized, done + {g})
  {
  }

  /** Every group that is optimized here is listed, or an empty one that is not (it ends the attempt). */
  predicate NothingLeaving(b: Books, grps: seq<int>, optimized: map<int, bool>) {
    match b
    case Books(_, ns, _) =>
      || DoneListed(grps, optimized, optimized.Keys)
      || exists g :: g in optimized && optimized[g] && g !in grps && g in ns && ns[g] <= 0
  }

  ghost predicate HasNamespace(t: Table, g: int, q: string) {
    exists n :: n in t && t[n] == g && (n.nqn == q || q == "0")
  }

  /** Nothing stands in the way of a change-group request to a listed group. */
  predicate Smooth(a: Answers, grps: seq<int>) {
    a.up && a.admitted && a.spdk && a.grps == grps && grps != []
  }

  lemma ListedIsNamed(t: Table, ns: NsLoads, spdk: set<Ns>, n: Ns)
    requires Sound(t, ns, spdk) && n in t
    ensures n in spdk && n.nsid != 0 && n.nqn != ""
  {
  }

  lemma FiringHasNamespace(t: Table, grps: seq<int>, g: int, q: string)
    requires grps != [] && CheckFires(t, grps, g, q)
    ensures HasNamespace(t, g, q)
  {
    FiringGap(SubsysLoad(t, g, q), MinLoad(t, grps, q), SubsysCount(t, q), |grps|);
    assert InBoth(t, g, q) != {};
    var m :| m in InBoth(t, g, q);
  }

  lemma LoadedHasNamespace(b: Books, g: int)
    requires Accounted(b) && g in b.ns && b.ns[g] != 0
    ensures HasNamespace(b.table, g, "0")
  {
    assert InGroup(b.table, g) != {};
    var n :| n in InGroup(b.table, g);
  }

  /** The gateway has no entry for the group yet (or one of a subsystem called like the answer for none). */
  predicate NoSubsystem(subs: SubsLoads, g: int) {
    LoadsIn(subs, g) == map[] || "null" in LoadsIn(subs, g)
  }

  /** The same entries, but for empty rows. */
  ghost predicate SameEntries(subs: SubsLoads, subs': SubsLoads) {
    forall g :: LoadsIn(subs', g) == LoadsIn(subs, g)
  }

  /** A least loaded listed group, not group 0, in which the gateway has an entry for some subsystem. */
  ghost predicate HasDestination(t: Table, subs: SubsLoads, grps: seq<int>) {
    exists d :: d != 0 && LeastLoaded(t, grps, d) && LoadsIn(subs, d) != map[]
  }

  lemma SameDestination(t: Table, subs: SubsLoads, subs': SubsLoads, grps: seq<int>)
    requires SameEntries(subs, subs') && HasDestination(t, subs', grps)
    ensures HasDestination(t, subs, grps)
  {
    var d :| d != 0 && LeastLoaded(t, grps, d) && LoadsIn(subs', d) != map[];
    assert LoadsIn(subs, d) != map[];
  }

  /** No listed group, or a least loaded one that the gateway has no entry for, or that is group 0. */
  predicate Unresolved(t: Table, subs: SubsLoads, grps: seq<int>) {
    grps == [] || exists g :: g in grps && LeastLoaded(t, grps, g) && (g == 0 || NoSubsystem(subs, g))
  }

  /** No group that is optimized here is left to leave, and yet a group outside the list has namespaces; group 0
      is not one of those. */
  predicate Deadlocked(b: Books, grps: seq<int>, optimized: map<int, bool>) {
    match b
    case Books(_, ns, _) =>
      && DoneListed(grps, optimized, optimized.Keys)
      && (exists g :: g in optimized && g !in grps && g in ns && ns[g] != 0)
      && (0 in optimized && 0 in ns && ns[0] != 0 ==> 0 in grps)
  }

  lemma SomeGroup(s: set<int>)
    ensures s == {} || exists g: int :: g in s
  {
    assert (forall g :: g !in s) ==> s == {};
  }

  lemma QuietAll(t: Table, grps: seq<int>, optimized: map<int, bool>, done: set<int>)
    requires Quiet(t, grps, optimized, done) && forall g :: g in done <==> g in optimized
    ensures Quiet(t, grps, optimized, optimized.Keys)
  {
  }

  class GatewayService {
    /** The local list of namespaces with their groups. */
    var namespaces: Table
    /** The namespaces SPDK has. */
    var spdkNamespaces: set<Ns>
    var anaGrpNsLoad: NsLoads
    var anaGrpSubsLoad: SubsLoads

    ghost predicate Counted()
      reads this
    {
      Accounted(GetBooks())
    }

    ghost function GetBooks(): Books
      reads this
    {
      Books(namespaces, anaGrpNsLoad, anaGrpSubsLoad)
    }

    ghost predicate Valid()
      reads this
    {
      Sound(namespaces, anaGrpNsLoad, spdkNamespaces)
    }

    constructor (maxAnaGrps: nat)
      ensures Valid() && Counted() && namespaces == map[] && spdkNamespaces == {} && anaGrpSubsLoad == map[]
      ensures forall g :: g in anaGrpNsLoad <==> 0 <= g <= maxAnaGrps
    {
      namespaces, spdkNamespaces, anaGrpNsLoad, anaGrpSubsLoad := map[], {}, map[], map[];
      new;
      for g := 0 to maxAnaGrps + 1
        invariant namespaces == map[] && spdkNamespaces == {} && anaGrpSubsLoad == map[]
        invariant forall h :: h in anaGrpNsLoad <==> 0 <= h < g
        invariant forall h | h in anaGrpNsLoad :: anaGrpNsLoad[h] == 0
      {
        anaGrpNsLoad := anaGrpNsLoad[g := 0];
      }
    }

    /** Adds namespace `nsid` (0: any free ID) of `q` to group `g`. `answer` is SPDK's: the ID, or none for a
        failure. */
    method CreateNamespace(q: string, nsid: nat, g: int, admitted: bool, answer: Option<nat>) returns (outcome: Outcome)
      requires Valid()
      requires answer.Some? ==> answer.value > 0 && Ns(q, answer.value) !in spdkNamespaces
      modifies this
      ensures Valid() && anaGrpNsLoad.Keys == old(anaGrpNsLoad.Keys)
      ensures outcome.Done? <==> q != "" && admitted && answer.Some? && g in old(anaGrpNsLoad)
      ensures outcome.Done? || outcome.Refused?
      ensures outcome.Done? ==> namespaces == old(namespaces)[Ns(q, answer.value) := g]
      ensures outcome.Done? ==>
                && anaGrpNsLoad == old(anaGrpNsLoad)[g := old(anaGrpNsLoad)[g] + 1]
                && anaGrpSubsLoad == Raise(old(anaGrpSubsLoad), g, q)
      ensures spdkNamespaces == old(spdkNamespaces) +
                                if q != "" && admitted && answer.Some? then {Ns(q, answer.value)} else {}
      ensures outcome.Refused? ==>
                && anaGrpNsLoad == old(anaGrpNsLoad) && anaGrpSubsLoad == old(anaGrpSubsLoad)
                && namespaces == old(namespaces) -
                                 if q != "" && admitted && answer.None? then Dropped(old(namespaces), q, nsid) else {}
      ensures old(Counted()) ==>
                (Counted() <==>
                 q == "" || !admitted || answer.Some? || Dropped(old(namespaces), q, nsid) !! old(namespaces).Keys)
    {
      outcome := Refused;
      if q == "" || !admitted { return; }
      if answer.None? {
        RemoveNamespace(q, nsid);
        if old(Counted()) {
          DroppingBreaksAccounting(old(GetBooks()), Dropped(old(namespaces), q, nsid));
          assert GetBooks() == old(GetBooks()).(table := old(namespaces) - Dropped(old(namespaces), q, nsid));
        }
        return;
      }
      var n := Ns(q, answer.value);
      spdkNamespaces := spdkNamespaces + {n};
      namespaces := namespaces[n := g];
      if g !in anaGrpNsLoad {
        RemoveNamespace(q, n.nsid);
        assert namespaces == old(namespaces);
        assert GetBooks() == old(GetBooks());
        return;
      }
      if old(Counted()) { AccountedAfterAdd(old(GetBooks()), n, g); }
      CountNew(g, q);
      outcome := Done;
    }

    method CountNew(g: int, q: string)
      requires g in anaGrpNsLoad
      modifies `anaGrpNsLoad, `anaGrpSubsLoad
      ensures anaGrpNsLoad == old(anaGrpNsLoad)[g := old(anaGrpNsLoad)[g] + 1]
      ensures anaGrpNsLoad.Keys == old(anaGrpNsLoad.Keys)
      ensures anaGrpSubsLoad == Raise(old(anaGrpSubsLoad), g, q)
    {
      anaGrpNsLoad := anaGrpNsLoad[g := anaGrpNsLoad[g] + 1];
      anaGrpSubsLoad := Raise(anaGrpSubsLoad, g, q);
    }

    /** Takes one namespace, or without an ID all of the subsystem's, off the list. */
    method RemoveNamespace(q: string, nsid: nat)
      modifies `namespaces
      ensures namespaces == old(namespaces) - Dropped(old(namespaces), q, nsid)
      ensures forall n :: n in namespaces <==>
                          n in old(namespaces) && !(n.nqn == q && (nsid == 0 || n.nsid == nsid))
    {
      if nsid != 0 {
        namespaces := namespaces - {Ns(q, nsid)};
      } else {
        namespaces := map n | n in namespaces && n.nqn != q :: namespaces[n];
      }
    }

    /** Moves a namespace to group `dest`. A client's request (`local`) must name a listed group and be admitted;
        one replayed from the shared state is not checked. */
    method ChangeGroup(n: Ns, dest: int, local: bool, a: Answers) returns (outcome: Outcome)
      requires Valid()
      modifies this
      ensures Valid() && anaGrpNsLoad.Keys == old(anaGrpNsLoad.Keys) && spdkNamespaces == old(spdkNamespaces)
      ensures outcome.Refused? <==>
                || n.nqn == "" || n.nsid == 0 || (local && (dest !in a.grps || !a.admitted)) || !a.spdk
                || n !in spdkNamespaces
      ensures outcome.Refused? ==> GetBooks() == old(GetBooks())
      ensures !outcome.Refused? ==> (GetBooks(), outcome.Raised?) == Moved(old(GetBooks()), n, dest)
      ensures outcome.Unsaved? ==> local && !a.persisted
    {
      if n.nqn == "" || n.nsid == 0 { return Refused; }
      if local && dest !in a.grps { return Refused; }
      if local && !a.admitted { return Refused; }
      if !a.spdk || n !in spdkNamespaces { return Refused; }
      var raised := CountMove(n, dest);
      outcome := if raised then Raised else if local && !a.persisted then Unsaved else Done;
    }

    method CountMove(n: Ns, dest: int) returns (raised: bool)
      requires Valid()
      modifies `namespaces, `anaGrpNsLoad, `anaGrpSubsLoad
      ensures Valid() && anaGrpNsLoad.Keys == old(anaGrpNsLoad.Keys)
      ensures (GetBooks(), raised) == Moved(old(GetBooks()), n, dest)
    {
      var listed := n in namespaces;
      var g := if listed then namespaces[n] else 0;
      if g !in anaGrpNsLoad { return true; }
      anaGrpNsLoad := anaGrpNsLoad[g := anaGrpNsLoad[g] - 1];
      anaGrpSubsLoad := anaGrpSubsLoad[g := LoadsIn(anaGrpSubsLoad, g)];
      if n.nqn !in anaGrpSubsLoad[g] { return true; }
      anaGrpSubsLoad := Lower(anaGrpSubsLoad, g, n.nqn);
      if dest !in anaGrpNsLoad { return true; }
      anaGrpNsLoad := anaGrpNsLoad[dest := anaGrpNsLoad[dest] + 1];
      anaGrpSubsLoad := Raise(anaGrpSubsLoad, dest, n.nqn);
      if listed { namespaces := namespaces[n := dest]; }
      raised := false;
    }

    /** Deletes a listed namespace. `admitted` covers the checks on the request and the confirmation for an
        image that goes to the trash. With wrong counters a missing entry ends the request when SPDK has already
        removed the namespace. */
    method DeleteNamespace(n: Ns, admitted: bool, spdk: bool) returns (outcome: Outcome)
      requires Valid()
      modifies this
      ensures anaGrpNsLoad.Keys == old(anaGrpNsLoad.Keys) && (!outcome.Raised? ==> Valid())
      ensures old(Counted()) ==> Counted() && !outcome.Raised?
      ensures outcome.Refused? <==> n.nsid == 0 || n.nqn == "" || n !in old(namespaces) || !admitted || !spdk
      ensures outcome.Refused? ==> unchanged(this)
      ensures !outcome.Refused? ==> spdkNamespaces == old(spdkNamespaces) - {n}
      ensures namespaces == if outcome.Done? then old(namespaces) - {n} else old(namespaces)
      ensures !outcome.Unsaved?
    {
      if n.nsid == 0 || n.nqn == "" { return Refused; }
      if n !in namespaces || !admitted { return Refused; }
      if !spdk { return Refused; }
      if old(Counted()) { AccountedAfterRemove(old(GetBooks()), n); }
      spdkNamespaces := spdkNamespaces - {n};
      var g := namespaces[n];
      if g !in anaGrpNsLoad { return Raised; }
      anaGrpNsLoad := anaGrpNsLoad[g := anaGrpNsLoad[g] - 1];
      if g in anaGrpSubsLoad { assert anaGrpSubsLoad[g := anaGrpSubsLoad[g]] == anaGrpSubsLoad; }
      anaGrpSubsLoad := anaGrpSubsLoad[g := LoadsIn(anaGrpSubsLoad, g)];
      if n.nqn !in anaGrpSubsLoad[g] { return Raised; }
      anaGrpSubsLoad := Lower(anaGrpSubsLoad, g, n.nqn);
      RemoveNamespace(n.nqn, n.nsid);
      outcome := Done;
    }

    /** Deletes a subsystem: its namespaces leave the list, the counters stay. */
    method DeleteSubsystem(q: string, spdk: bool)
      requires Valid()
      modifies this
      ensures Valid() && anaGrpNsLoad == old(anaGrpNsLoad) && anaGrpSubsLoad == old(anaGrpSubsLoad)
      ensures namespaces == if spdk then old(namespaces) - InSubsys(old(namespaces), q) else old(namespaces)
      ensures forall n :: n in spdkNamespaces <==> n in old(spdkNamespaces) && !(spdk && n.nqn == q)
      ensures old(Counted()) ==> (Counted() <==> !spdk || InSubsys(old(namespaces), q) == {})
    {
      if spdk {
        spdkNamespaces := set n | n in spdkNamespaces && n.nqn != q;
        RemoveNamespace(q, 0);
        if old(Counted()) {
          DroppingBreaksAccounting(old(GetBooks()), InSubsys(old(namespaces), q));
        }
      }
    }

    method TouchRow(g: int)
      requires Valid() && Counted()
      modifies `anaGrpSubsLoad
      ensures Valid() && Counted() && anaGrpSubsLoad == old(anaGrpSubsLoad)[g := LoadsIn(old(anaGrpSubsLoad), g)]
    {
      AccountedAfterTouch(GetBooks(), g);
      anaGrpSubsLoad := anaGrpSubsLoad[g := LoadsIn(anaGrpSubsLoad, g)];
    }

    method PutZero(g: int, q: string)
      requires Valid() && Counted() && ((g in anaGrpNsLoad && anaGrpNsLoad[g] == 0) || q !in LoadsIn(anaGrpSubsLoad, g))
      modifies `anaGrpSubsLoad
      ensures Valid() && Counted() && SubsysLoad(namespaces, g, q) == 0
      ensures anaGrpSubsLoad == old(anaGrpSubsLoad)[g := LoadsIn(old(anaGrpSubsLoad), g)[q := 0]]
    {
      MissingEntryIsZero(GetBooks(), g, q);
      AccountedAfterZero(GetBooks(), g, q);
      anaGrpSubsLoad := anaGrpSubsLoad[g := LoadsIn(anaGrpSubsLoad, g)[q := 0]];
    }

    /** The first listed group without namespaces. */
    method FirstEmpty(grps: seq<int>) returns (found: bool, g: int)
      requires GroupsKnown(grps, anaGrpNsLoad)
      ensures found ==> g in grps && g in anaGrpNsLoad && anaGrpNsLoad[g] == 0
      ensures !found ==> forall i | 0 <= i < |grps| :: anaGrpNsLoad[grps[i]] != 0
    {
      for i := 0 to |grps|
        invariant forall j | 0 <= j < i :: anaGrpNsLoad[grps[j]] != 0
      {
        if anaGrpNsLoad[grps[i]] == 0 { return true, grps[i]; }
      }
      found, g := false, 0;
    }

    /** The listed group with the fewest namespaces of `q`, and their number. Missing entries are filled with
        zeros on the way. */
    method FindMinLoadedGroupInSubsys(q: string, grps: seq<int>) returns (load: int, chosen: int)
      requires Valid() && Counted() && |namespaces| < INVALID_LOAD_BALANCING_GROUP
      requires GroupsKnown(grps, anaGrpNsLoad)
      modifies `anaGrpSubsLoad
      ensures Valid() && Counted()
      ensures anaGrpSubsLoad == old(anaGrpSubsLoad)
           || anaGrpSubsLoad == old(anaGrpSubsLoad)[chosen := LoadsIn(old(anaGrpSubsLoad), chosen)[q := 0]]
      ensures grps == [] ==> load == INVALID_LOAD_BALANCING_GROUP && chosen == 0
      ensures grps != [] ==>
                && chosen in grps && chosen in anaGrpSubsLoad && q in anaGrpSubsLoad[chosen]
                && load == SubsysLoad(namespaces, chosen, q) == MinLoad(namespaces, grps, q)
    {
      var empty, e := FirstEmpty(grps);
      if empty {
        PutZero(e, q);
        return 0, e;
      }
      load, chosen := INVALID_LOAD_BALANCING_GROUP, 0;
      var subs := anaGrpSubsLoad;
      var todo := subs.Keys;
      while todo != {}
        invariant anaGrpSubsLoad == subs && todo <= subs.Keys
        invariant forall g | g in grps && g in subs && g !in todo :: load <= SubsysLoad(namespaces, g, q)
        invariant (chosen == 0 && load == INVALID_LOAD_BALANCING_GROUP
                   && forall i | 0 <= i < |grps| :: grps[i] in subs ==> grps[i] in todo)
               || (chosen in grps && chosen in subs && q in subs[chosen] && load == SubsysLoad(namespaces, chosen, q))
      {
        assert exists g: int :: g in todo by { SomeGroup(todo); }
        var g: int :| g in todo;
        todo := todo - {g};
        if g in grps {
          if q in subs[g] {
            RecordedLoad(GetBooks(), g, q);
            if subs[g][q] <= load {
              load, chosen := subs[g][q], g;
            }
          } else {
            PutZero(g, q);
            return 0, g;
          }
        }
      }
      forall i | 0 <= i < |grps| ensures grps[i] in subs { LoadedGroupHasEntry(GetBooks(), grps[i]); }
      assert grps != [] ==> grps[0] in subs && (grps[0] in todo || chosen in grps);
    }

    /** The listed group with the fewest namespaces, and the subsystem that has the fewest of them there. */
    method FindMinLoadedGroup(grps: seq<int>) returns (chosen: int, q: string)
      requires Valid() && Counted() && |namespaces| < INVALID_LOAD_BALANCING_GROUP
      requires GroupsKnown(grps, anaGrpNsLoad)
      modifies `anaGrpSubsLoad
      ensures Valid() && Counted()
      ensures if grps == [] then chosen == 0 else LeastLoaded(namespaces, grps, chosen)
      ensures SameEntries(old(anaGrpSubsLoad), anaGrpSubsLoad)
      ensures q != "null" ==> HasDestination(namespaces, old(anaGrpSubsLoad), grps)
      ensures chosen != 0 && q == "null" ==> NoSubsystem(old(anaGrpSubsLoad), chosen)
      ensures q != "null" ==>
                && chosen in anaGrpSubsLoad && q in anaGrpSubsLoad[chosen]
                && forall p | p in anaGrpSubsLoad[chosen] ::
                     SubsysLoad(namespaces, chosen, q) <= SubsysLoad(namespaces, chosen, p)
    {
      chosen, q := 0, "null";
      var load := INVALID_LOAD_BALANCING_GROUP;
      var todo := anaGrpNsLoad.Keys;
      assert forall i | 0 <= i < |grps| :: grps[i] in todo;
      while todo != {}
        invariant todo <= anaGrpNsLoad.Keys && anaGrpSubsLoad == old(anaGrpSubsLoad)
        invariant forall g | g in grps && g !in todo :: load <= GroupLoad(namespaces, g)
        invariant (chosen == 0 && load == INVALID_LOAD_BALANCING_GROUP && forall i | 0 <= i < |grps| :: grps[i] in todo)
               || (chosen in grps && chosen in anaGrpNsLoad && load == GroupLoad(namespaces, chosen))
      {
        assert exists g: int :: g in todo by { SomeGroup(todo); }
        var g: int :| g in todo;
        todo := todo - {g};
        GroupLoadsOfSubsystem(namespaces, g, q);
        if g in grps && anaGrpNsLoad[g] <= load {
          load, chosen := anaGrpNsLoad[g], g;
        }
      }
      assert grps != [] ==> grps[0] in grps && (grps[0] in todo || chosen in grps);
      if chosen != 0 {
        q := LeastSubsystem(chosen);
        assert q != "null" ==> q in LoadsIn(old(anaGrpSubsLoad), chosen);
      }
    }

    /** The subsystem with the fewest namespaces in a group, "null" if the group has no entry. */
    method LeastSubsystem(g: int) returns (q: string)
      requires Valid() && Counted() && |namespaces| < INVALID_LOAD_BALANCING_GROUP
      modifies `anaGrpSubsLoad
      ensures Valid() && Counted()
      ensures SameEntries(old(anaGrpSubsLoad), anaGrpSubsLoad)
      ensures q == "null" ==> NoSubsystem(old(anaGrpSubsLoad), g)
      ensures q != "null" ==>
                && g in anaGrpSubsLoad && q in anaGrpSubsLoad[g]
                && forall p | p in anaGrpSubsLoad[g] :: SubsysLoad(namespaces, g, q) <= SubsysLoad(namespaces, g, p)
    {
      q := "null";
      var load := INVALID_LOAD_BALANCING_GROUP;
      TouchRow(g);
      var row := anaGrpSubsLoad[g];
      forall p | p in row ensures row[p] == SubsysLoad(namespaces, g, p) < INVALID_LOAD_BALANCING_GROUP {
        RecordedLoad(GetBooks(), g, p);
      }
      var names := row.Keys;
      while names != {}
        invariant names <= row.Keys && Counted() && anaGrpSubsLoad == old(anaGrpSubsLoad)[g := row]
        invariant forall p | p in row && p !in names :: load <= row[p]
        invariant (q == "null" && load == INVALID_LOAD_BALANCING_GROUP && names == row.Keys)
                    || (q in row && load == row[q])
      {
        var p :| p in names;
        names := names - {p};
        if row[p] < load {
          load, q := row[p], p;
        }
      }
    }

    /** Moves the first namespace of group `g` that belongs to `q` ("0": to any subsystem) to group `dest`. */
    method NsRebalance(g: int, dest: int, q: string, a: Answers)
      requires Valid() && Counted() && dest in anaGrpNsLoad
      modifies this
      ensures Valid() && Counted() && anaGrpNsLoad.Keys == old(anaGrpNsLoad.Keys)
      ensures namespaces == old(namespaces)
           || (a.up && a.admitted && a.spdk && dest in a.grps && MovedOne(old(namespaces), namespaces, g, dest, q))
      ensures a.up && a.admitted && a.spdk && dest in a.grps && HasNamespace(old(namespaces), g, q) ==>
                MovedOne(old(namespaces), namespaces, g, dest, q)
    {
      var todo := InGroup(namespaces, g);
      while todo != {}
        invariant todo <= InGroup(namespaces, g) && unchanged(this)
        invariant forall n | n in InGroup(namespaces, g) && n !in todo :: n.nqn != q && q != "0"
      {
        var n :| n in todo;
        todo := todo - {n};
        if n.nqn == q || q == "0" {
          if !a.up { return; }
          MovedCountedExactly(GetBooks(), n, dest);
          ListedIsNamed(namespaces, anaGrpNsLoad, spdkNamespaces, n);
          var _ := ChangeGroup(n, dest, true, a);
          return;
        }
      }
    }

    /** The regular check of one optimized group for one subsystem with an entry there, and the group to move
        a namespace to. */
    method CheckSubsystem(g: int, q: string, grps: seq<int>) returns (fires: bool, dest: int)
      requires Valid() && Counted() && |namespaces| < INVALID_LOAD_BALANCING_GROUP
      requires grps != [] && GroupsKnown(grps, anaGrpNsLoad)
      requires g in anaGrpSubsLoad && q in anaGrpSubsLoad[g]
      modifies `anaGrpSubsLoad
      ensures Valid() && Counted()
      ensures g in anaGrpSubsLoad && old(anaGrpSubsLoad)[g].Keys <= anaGrpSubsLoad[g].Keys
      ensures fires <==> CheckFires(namespaces, grps, g, q)
      ensures fires ==> dest in grps && SubsysLoad(namespaces, dest, q) == MinLoad(namespaces, grps, q)
    {
      var k, total, load := |grps|, |InSubsys(namespaces, q)|, anaGrpSubsLoad[g][q];
      RecordedLoad(GetBooks(), g, q);
      FiresWithLoads(namespaces, grps, g, q);
      if !AboveAverage(load, total, k) { return false, 0; }
      ghost var before := anaGrpSubsLoad;
      var min;
      min, dest := FindMinLoadedGroupInSubsys(q, grps);
      RecordedLoad(GetBooks(), dest, q);
      RowsKept(before, anaGrpSubsLoad, dest, q, g);
      fires := Fit(load, anaGrpSubsLoad[dest][q], total, k);
    }

    /** The first subsystem of one optimized group whose check fires. */
    method FirstFiring(g: int, grps: seq<int>) returns (fires: bool, q: string, dest: int)
      requires Valid() && Counted() && |namespaces| < INVALID_LOAD_BALANCING_GROUP
      requires grps != [] && GroupsKnown(grps, anaGrpNsLoad)
      modifies `anaGrpSubsLoad
      ensures Valid() && Counted()
      ensures fires ==> CheckFires(namespaces, grps, g, q)
      ensures fires ==> dest in grps && SubsysLoad(namespaces, dest, q) == MinLoad(namespaces, grps, q)
      ensures !fires ==> forall p :: !CheckFires(namespaces, grps, g, p)
    {
      TouchRow(g);
      var row := anaGrpSubsLoad[g].Keys;
      ghost var books, t := GetBooks(), namespaces;
      var names := row;
      while names != {}
        invariant Valid() && Counted() && namespaces == t && names <= row
        invariant g in anaGrpSubsLoad && row <= anaGrpSubsLoad[g].Keys
        invariant QuietFor(t, grps, g, row - names)
      {
        q :| q in names;
        fires, dest := CheckSubsystem(g, q, grps);
        if fires { return; }
        QuietForOneMore(t, grps, g, row, names, q);
        names := names - {q};
      }
      QuietRowIsQuiet(books, grps, g, row);
      fires, q, dest := false, "", 0;
    }

    /** The regular check of one optimized group: moves one namespace of the first subsystem that fires. */
    method RegularRebalance(g: int, grps: seq<int>, a: Answers) returns (moved: bool)
      requires Valid() && Counted() && NoneNamedZero(namespaces) && |namespaces| < INVALID_LOAD_BALANCING_GROUP
      requires g in grps && GroupsKnown(grps, anaGrpNsLoad)
      modifies this
      ensures Valid() && Counted() && anaGrpNsLoad.Keys == old(anaGrpNsLoad.Keys)
      ensures moved ==> namespaces == old(namespaces) || AutoMove(old(namespaces), namespaces, grps)
      ensures moved && Smooth(a, grps) ==> AutoMove(old(namespaces), namespaces, grps)
      ensures moved <==> exists q :: CheckFires(old(namespaces), grps, g, q)
      ensures !moved ==> unchanged(`namespaces, `anaGrpNsLoad, `spdkNamespaces)
    {
      var q, dest;
      moved, q, dest := FirstFiring(g, grps);
      if moved {
        FiringHasNamespace(namespaces, grps, g, q);
        NsRebalance(g, dest, q, a);
        if MovedOne(old(namespaces), namespaces, g, dest, q) {
          FiringMoves(old(namespaces), namespaces, grps, g, dest, q);
        }
      }
    }

    /** Whether a group that still has namespaces is no longer listed, and which. */
    method ScaleDownOngoing(grps: seq<int>, known: set<int>) returns (ongoing: bool, invalid: int)
      requires known <= anaGrpNsLoad.Keys
      ensures ongoing <==> exists g :: g in known && anaGrpNsLoad[g] != 0 && g !in grps
      ensures if ongoing then invalid in known && invalid !in grps && anaGrpNsLoad[invalid] != 0 else invalid == 0
    {
      ongoing, invalid := false, 0;
      var todo := known;
      while todo != {}
        invariant todo <= known
        invariant ongoing <==> exists g :: g in known && g !in todo && anaGrpNsLoad[g] != 0 && g !in grps
        invariant if ongoing then invalid in known && invalid !in grps && anaGrpNsLoad[invalid] != 0 else invalid == 0
      {
        assert exists g: int :: g in todo by { SomeGroup(todo); }
        var g: int :| g in todo;
        todo := todo - {g};
        if anaGrpNsLoad[g] != 0 && g !in grps {
          ongoing, invalid := true, g;
        }
      }
    }

    /** Moves a namespace out of a group that is no longer listed to the least loaded listed group. With
        `needsSubsystem` it first wants a subsystem with an entry in that group. */
    method LeaveGroup(g: int, needsSubsystem: bool, grps: seq<int>, a: Answers) returns (acted: bool)
      requires Valid() && Counted() && |namespaces| < INVALID_LOAD_BALANCING_GROUP
      requires g !in grps && GroupsKnown(grps, anaGrpNsLoad) && 0 !in a.grps
      modifies this
      ensures Valid() && Counted() && anaGrpNsLoad.Keys == old(anaGrpNsLoad.Keys)
      ensures acted || needsSubsystem
      ensures acted && needsSubsystem ==> HasDestination(old(namespaces), old(anaGrpSubsLoad), grps)
      ensures !acted ==> SameEntries(old(anaGrpSubsLoad), anaGrpSubsLoad)
      ensures acted ==> namespaces == old(namespaces) || AutoMove(old(namespaces), namespaces, grps)
      ensures acted && Smooth(a, grps) && old(g in anaGrpNsLoad && anaGrpNsLoad[g] != 0) ==>
                AutoMove(old(namespaces), namespaces, grps)
      ensures !acted ==> unchanged(`namespaces, `anaGrpNsLoad, `spdkNamespaces)
      ensures !acted ==> Unresolved(namespaces, old(anaGrpSubsLoad), grps)
    {
      if g in anaGrpNsLoad && anaGrpNsLoad[g] != 0 { LoadedHasNamespace(GetBooks(), g); }
      var dest, q := FindMinLoadedGroup(grps);
      acted := !needsSubsystem || q != "null";
      if acted {
        NsRebalance(g, dest, "0", a);
        if dest in a.grps && MovedOne(old(namespaces), namespaces, g, dest, "0") {
          LeavingMoves(old(namespaces), namespaces, grps, g, dest, "0");
        }
      }
    }

    /** What a rebalance attempt does about one known group, if anything. `regular` allows the regular check,
        `resolving` moves a namespace out of the unlisted group `invalid`. */
    method Consider(g: int, optimized: bool, regular: bool, resolving: bool, invalid: int, grps: seq<int>, limit: int,
                    a: Answers)
      returns (decided: bool, rc: int)
      requires Valid() && Counted() && NoneNamedZero(namespaces) && |namespaces| < INVALID_LOAD_BALANCING_GROUP
      requires GroupsKnown(grps, anaGrpNsLoad) && 0 !in a.grps && g in anaGrpNsLoad
      requires resolving ==> invalid in anaGrpNsLoad && anaGrpNsLoad[invalid] != 0 && invalid !in grps
      modifies this
      ensures Valid() && Counted() && anaGrpNsLoad.Keys == old(anaGrpNsLoad.Keys)
      ensures !decided || rc == 1 ==> unchanged(`namespaces, `anaGrpNsLoad, `spdkNamespaces)
      ensures decided ==> rc == 0 || (rc == 1 && optimized && g !in grps && (anaGrpNsLoad[g] <= 0 || limit <= 0))
      ensures decided && rc == 0 ==>
                || (optimized && g !in grps && old(anaGrpNsLoad)[g] > 0 && limit > 0)
                || (optimized && g in grps && regular && exists q :: CheckFires(old(namespaces), grps, g, q))
                || (&& resolving
                    && (!regular || !optimized ==> HasDestination(old(namespaces), old(anaGrpSubsLoad), grps)))
      ensures !decided && !regular ==> SameEntries(old(anaGrpSubsLoad), anaGrpSubsLoad)
      ensures decided && rc == 0 ==> namespaces == old(namespaces) || AutoMove(old(namespaces), namespaces, grps)
      ensures decided && rc == 0 && Smooth(a, grps) ==> AutoMove(old(namespaces), namespaces, grps)
      ensures !decided && optimized ==> g in grps && (regular ==> forall q :: !CheckFires(namespaces, grps, g, q))
      ensures !decided && resolving && !(optimized && regular) ==> Unresolved(namespaces, old(anaGrpSubsLoad), grps)
    {
      if optimized {
        if g !in grps {
          var num := if anaGrpNsLoad[g] >= limit then limit else anaGrpNsLoad[g];
          if num <= 0 { return true, 1; }
          var _ := LeaveGroup(g, false, grps, a);
          return true, 0;
        } else if regular {
          var moved := RegularRebalance(g, grps, a);
          if moved { return true, 0; }
        }
      }
      decided, rc := false, 1;
      if resolving {
        decided := LeaveGroup(invalid, true, grps, a);
        if decided { rc := 0; }
      }
    }

    /** One automatic rebalance attempt on the groups the monitor lists; 1 means nothing to do. `worker` is the
        group whose gateway may rebalance now (0: none), `calm` says that the last scale-down is long enough
        ago, `optimized` holds the state of every known group, `numGws` the number of gateways the monitor
        counts and `limit` the configured number of moves per round. */
    method RebalanceLogic(grps: seq<int>, worker: int, supported: bool, calm: bool, optimized: map<int, bool>,
                          numGws: int, limit: int, a: Answers) returns (rc: int)
      requires Valid() && Counted() && NoneNamedZero(namespaces) && |namespaces| < INVALID_LOAD_BALANCING_GROUP
      requires GroupsKnown(grps, anaGrpNsLoad) && 0 !in a.grps
      requires optimized.Keys <= anaGrpNsLoad.Keys && (worker != 0 ==> worker in optimized)
      modifies this
      ensures Valid() && Counted() && anaGrpNsLoad.Keys == old(anaGrpNsLoad.Keys)
      ensures rc == 0 || rc == 1
      ensures rc == 1 ==> namespaces == old(namespaces)
      ensures rc == 0 ==>
                && worker != 0 && supported
                && var ns := old(anaGrpNsLoad);
                   || (limit > 0 && exists g :: g in optimized && optimized[g] && g !in grps && ns[g] > 0)
                   || (calm && optimized[worker] && forall g | g in optimized :: g in grps || ns[g] == 0)
                   || (&& optimized[worker] && |grps| == numGws
                       && (exists g :: g != 0 && g in optimized && g !in grps && ns[g] != 0)
                       && exists d :: d != 0 && LeastLoaded(old(namespaces), grps, d)
                                      && LoadsIn(old(anaGrpSubsLoad), d) != map[])
      ensures rc == 0 && (forall g | g in optimized && optimized[g] && g !in grps :: old(anaGrpNsLoad)[g] <= 0)
              && (forall g | g in optimized :: g in grps || old(anaGrpNsLoad)[g] == 0) ==>
                exists g, q :: grps != [] && g in optimized && optimized[g] && g in grps
                               && CheckFires(old(namespaces), grps, g, q)
      ensures rc == 0 ==> namespaces == old(namespaces) || AutoMove(old(namespaces), namespaces, grps)
      ensures rc == 0 && Smooth(a, grps) ==> AutoMove(old(namespaces), namespaces, grps)
      ensures rc == 1 && worker != 0 && supported && limit > 0 ==>
                || (forall g | g in optimized && optimized[g] :: g in grps)
                || exists g :: g in optimized && optimized[g] && g !in grps && old(anaGrpNsLoad)[g] <= 0
      ensures rc == 1 && worker != 0 && supported && calm && optimized[worker]
              && (forall g | g in optimized :: g in grps || (!optimized[g] && old(anaGrpNsLoad)[g] == 0)) ==>
                forall g, q | g in optimized && optimized[g] :: !CheckFires(namespaces, grps, g, q)
      ensures rc == 1 && worker != 0 && supported && calm && RegularMode(old(GetBooks()), grps, worker, optimized) ==>
                Quiet(namespaces, grps, optimized, optimized.Keys)
      ensures rc == 1 && worker != 0 && supported && |grps| == numGws && optimized[worker]
              && Deadlocked(old(GetBooks()), grps, optimized) ==>
                Unresolved(namespaces, old(anaGrpSubsLoad), grps)
    {
      if worker == 0 || !supported { return 1; }
      var ongoing, invalid := ScaleDownOngoing(grps, optimized.Keys);
      var regular := !ongoing && calm && optimized[worker];
      var resolving := ongoing && |grps| == numGws && optimized[worker] && invalid != 0;
      rc := ConsiderAll(regular, resolving, invalid, grps, optimized, limit, a);
    }

    /** Goes through the known groups until something is decided. */
    method ConsiderAll(regular: bool, resolving: bool, invalid: int, grps: seq<int>, optimized: map<int, bool>,
                       limit: int, a: Answers)
      returns (rc: int)
      requires Valid() && Counted() && NoneNamedZero(namespaces) && |namespaces| < INVALID_LOAD_BALANCING_GROUP
      requires GroupsKnown(grps, anaGrpNsLoad) && 0 !in a.grps && optimized.Keys <= anaGrpNsLoad.Keys
      requires resolving ==> !regular && invalid in anaGrpNsLoad && anaGrpNsLoad[invalid] != 0 && invalid !in grps
      modifies this
      ensures Valid() && Counted() && anaGrpNsLoad.Keys == old(anaGrpNsLoad.Keys) && (rc == 0 || rc == 1)
      ensures rc == 1 ==> namespaces == old(namespaces)
      ensures rc == 0 ==>
                || (limit > 0 && exists g :: g in optimized && optimized[g] && g !in grps && old(anaGrpNsLoad)[g] > 0)
                || (regular && grps != [] && exists g, q :: g in optimized && optimized[g] && g in grps
                                                            && CheckFires(old(namespaces), grps, g, q))
                || (resolving && HasDestination(old(namespaces), old(anaGrpSubsLoad), grps))
      ensures rc == 0 ==> namespaces == old(namespaces) || AutoMove(old(namespaces), namespaces, grps)
      ensures rc == 0 && Smooth(a, grps) ==> AutoMove(old(namespaces), namespaces, grps)
      ensures rc == 1 && limit > 0 ==> NothingLeaving(old(GetBooks()), grps, optimized)
      ensures rc == 1 ==>
                || (exists g ::
                      g in optimized && optimized[g] && g !in grps && (old(anaGrpNsLoad)[g] <= 0 || limit <= 0))
                || (&& DoneListed(grps, optimized, optimized.Keys)
                    && (regular ==> Quiet(old(namespaces), grps, optimized, optimized.Keys))
                    && (resolving && (exists g :: g in optimized) ==>
                        Unresolved(old(namespaces), old(anaGrpSubsLoad), grps)))
    {
      var todo := optimized.Keys;
      ghost var t, ns, subs, done: set<int> := namespaces, anaGrpNsLoad, anaGrpSubsLoad, {};
      while todo != {}
        invariant todo <= optimized.Keys && namespaces == t && anaGrpNsLoad == ns
        invariant forall g :: g in done <==> g in optimized && g !in todo
        invariant Valid() && Counted() && (done == {} ==> anaGrpSubsLoad == subs)
        invariant DoneListed(grps, optimized, done)
        invariant regular ==> Quiet(t, grps, optimized, done)
        invariant resolving && done != {} ==> Unresolved(t, subs, grps)
        invariant resolving ==> SameEntries(subs, anaGrpSubsLoad)
      {
        assert exists g: int :: g in todo by { SomeGroup(todo); }
        var g: int :| g in todo;
        todo := todo - {g};
        var decided;
        ghost var subs' := anaGrpSubsLoad;
        decided, rc := Consider(g, optimized[g], regular, resolving, invalid, grps, limit, a);
        if decided {
          if resolving && HasDestination(t, subs', grps) { SameDestination(t, subs, subs', grps); }
          return;
        }
        if regular { QuietMore(t, grps, optimized, done, g); }
        ListedMore(grps, optimized, done, g);
        done := done + {g};
      }
      if regular { QuietAll(t, grps, optimized, done); }
      assert DoneListed(grps, optimized, optimized.Keys);
      rc := 1;
    }

    /** One round of the rebalance thread: at most `limit` attempts, ended by the first with nothing to do. All
        answers stay the same during the round. */
    method AutoRebalanceRound(grps: seq<int>, worker: int, supported: bool, calm: bool, optimized: map<int, bool>,
                              numGws: int, limit: nat, a: Answers)
      requires Valid() && Counted() && NoneNamedZero(namespaces) && |namespaces| < INVALID_LOAD_BALANCING_GROUP
      requires GroupsKnown(grps, anaGrpNsLoad) && 0 !in a.grps
      requires optimized.Keys <= anaGrpNsLoad.Keys && (worker != 0 ==> worker in optimized)
      modifies this
      ensures Valid() && Counted() && namespaces.Keys == old(namespaces.Keys)
      ensures namespaces == old(namespaces) || Measure(namespaces, grps) < Measure(old(namespaces), grps)
      ensures namespaces != old(namespaces) ==>
                && worker != 0 && supported && limit > 0
                && (optimized[worker] || exists g :: g in optimized && optimized[g] && g !in grps)
      ensures Smooth(a, grps) && worker != 0 && supported && calm
                && RegularMode(old(GetBooks()), grps, worker, optimized) ==>
                && RegularMode(GetBooks(), grps, worker, optimized)
                && (Quiet(namespaces, grps, optimized, optimized.Keys)
                    || Measure(namespaces, grps) + limit <= Measure(old(namespaces), grps))
    {
      ghost var regular := Smooth(a, grps) && worker != 0 && supported && calm
                           && RegularMode(GetBooks(), grps, worker, optimized);
      for i := 0 to limit
        invariant regular ==> RegularMode(GetBooks(), grps, worker, optimized)
        invariant Smooth(a, grps) ==> Measure(namespaces, grps) + i <= Measure(old(namespaces), grps)
        invariant Valid() && Counted() && NoneNamedZero(namespaces) && |namespaces| < INVALID_LOAD_BALANCING_GROUP
        invariant anaGrpNsLoad.Keys == old(anaGrpNsLoad.Keys) && namespaces.Keys == old(namespaces.Keys)
        invariant namespaces == old(namespaces) || Measure(namespaces, grps) < Measure(old(namespaces), grps)
        invariant namespaces != old(namespaces) ==>
                    && worker != 0 && supported && limit > 0
                    && (optimized[worker] || exists g :: g in optimized && optimized[g] && g !in grps)
      {
        ghost var b, t := GetBooks(), namespaces;
        var rc := RebalanceLogic(grps, worker, supported, calm, optimized, numGws, limit, a);
        if AutoMove(t, namespaces, grps) { MoveKeepsNames(t, namespaces, grps); }
        if rc == 1 { break; }
        RegularModeKept(b, GetBooks(), grps, worker, optimized);
      }
    }
  }
}
