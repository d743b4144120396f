/** A concrete run of two gateways after which a copy is not the shared state although nothing is under way. */
module Drift {
  import opened Text
  import opened StateKeys
  import opened StateOps
  import opened Protocol
  import opened Progress
  import Replay

  // ----- a run in which a copy drifts away -----

  /** The gateway is in the section, and its copy is the OMAP. */
  predicate Writing(s: State, g: Gw) {
    g in s.gws && s.gws[g] == Gateway(OmapVersion(s), s.omap, Verified, Resting)
  }

  /** A whole operation that agrees and erases nothing but its head key. */
  lemma RunOperation(ss: seq<State>, es: seq<Event>, g: Gw, op: Op) returns (ss': seq<State>, es': seq<Event>)
    requires IsRun(ss, es) && Writing(ss[|es|], g) && Offered(op) && !op.DropIfPresent?
               && !LocalRaises(op, ss[|es|].omap)
    requires CascadeKeys(op, HeadApplied(op, ss[|es|].omap)) == {}
    ensures IsRun(ss', es') && ss <= ss'
    ensures var s, t := ss[|es|], ss'[|es'|];
            && Writing(t, g) && t.omap == HeadApplied(op, s.omap) && t.writer == s.writer && t.readers == s.readers
            && t.gws == s.gws[g := t.gws[g]] && OmapVersion(t) == OmapVersion(s) + 1
  {
    var s := ss[|es|];
    var m := HeadApplied(op, s.omap);
    ss', es' := OneMore(ss, es, Begin(g, op));
    assert ss'[|es'|] == With(s, g, s.gws[g].(rpc := OmapHead(op)));
    ss', es' := OneMore(ss', es', WriteHead(g));
    assert ss'[|es'|].gws == s.gws[g := Gateway(OmapVersion(s) + 1, s.omap, OmapTail(op, {}), Resting)];
    ss', es' := OneMore(ss', es', EndOmap(g));
    assert ss'[|es'|].gws == s.gws[g := Gateway(OmapVersion(s) + 1, s.omap, LocalHead(op), Resting)];
    ss', es' := OneMore(ss', es', StartLocal(g));
    assert ss'[|es'|].gws == s.gws[g := Gateway(OmapVersion(s) + 1, m, LocalTail(op, {}), Resting)];
    ss', es' := OneMore(ss', es', EndLocal(g));
    assert ss'[|es'|].gws == s.gws[g := Gateway(OmapVersion(s) + 1, m, Verified, Resting)];
  }

  lemma RunEnter(ss: seq<State>, es: seq<Event>, g: Gw) returns (ss': seq<State>, es': seq<Event>)
    requires IsRun(ss, es)
    requires var s := ss[|es|];
             && s.writer == None && s.readers == {} && g in s.gws
             && s.gws[g] == Gateway(OmapVersion(s), s.omap, Idle, Resting)
    ensures IsRun(ss', es') && ss <= ss'
    ensures var s, t := ss[|es|], ss'[|es'|];
            && Writing(t, g) && t.omap == s.omap && OmapVersion(t) == OmapVersion(s)
            && t.writer == Some(g) && t.readers == {} && t.gws == s.gws[g := t.gws[g]]
  {
    ss', es' := OneMore(ss, es, Lock(g));
    ss', es' := OneMore(ss', es', Check(g));
  }

  lemma RunLeave(ss: seq<State>, es: seq<Event>, g: Gw) returns (ss': seq<State>, es': seq<Event>)
    requires IsRun(ss, es) && Writing(ss[|es|], g) && ss[|es|].readers == {}
    ensures IsRun(ss', es') && ss <= ss'
    ensures var s, t := ss[|es|], ss'[|es'|];
            && t.omap == s.omap && OmapVersion(t) == OmapVersion(s) && t.writer == None && t.readers == {}
            && t.gws == s.gws[g := s.gws[g].(rpc := Idle)]
  {
    ss', es' := OneMore(ss, es, Unlock(g));
  }

  /** The last operation: it drops namespace 1, which is not stored, while namespace 10 has QoS settings. */
  lemma RunDisagreeing(ss: seq<State>, es: seq<Event>, g: Gw, q: string) returns (ss': seq<State>, es': seq<Event>)
    requires IsRun(ss, es) && Writing(ss[|es|], g)
    requires var m := ss[|es|].omap;
             Namespace(q, 1) !in m && Qos(q, 10) in m && CascadeKeys(DropNamespace(q, 1), m) == {Qos(q, 10)}
    ensures IsRun(ss', es') && ss <= ss'
    ensures var s, t := ss[|es|], ss'[|es'|];
            && g in t.gws && t.gws[g] == Gateway(OmapVersion(t), s.omap, Verified, Resting)
            && t.omap == s.omap - {Qos(q, 10)} && t.omap != t.gws[g].local
  {
    var s := ss[|es|];
    var op, m := DropNamespace(q, 1), s.omap;
    assert HeadApplied(op, m) == m;
    ss', es' := OneMore(ss, es, Begin(g, op));
    assert ss'[|es'|] == With(s, g, s.gws[g].(rpc := OmapHead(op)));
    ss', es' := OneMore(ss', es', WriteHead(g));
    assert ss'[|es'|].gws == s.gws[g := Gateway(OmapVersion(s) + 1, m, OmapTail(op, {Qos(q, 10)}), Resting)];
    assert {Qos(q, 10)} - {Qos(q, 10)} == {};
    ss', es' := OneMore(ss', es', WriteTail(g, Qos(q, 10)));
    assert ss'[|es'|].gws == s.gws[g := Gateway(OmapVersion(s) + 2, m, OmapTail(op, {}), Resting)];
    assert ss'[|es'|].omap == m - {Qos(q, 10)};
    ss', es' := OneMore(ss', es', EndOmap(g));
    assert ss'[|es'|].gws == s.gws[g := Gateway(OmapVersion(s) + 2, m, LocalHead(op), Resting)];
    ss', es' := OneMore(ss', es', StartLocal(g));
    assert ss'[|es'|].gws == s.gws[g := Gateway(OmapVersion(s) + 2, m, Verified, Resting)];
  }

  /** What gateway 1 has when it catches up for the second time, and what it then finds in the OMAP. */
  function Before(q: string): Store {
    map[Subsystem(q) := "", Namespace(q, 1) := "", Namespace(q, 2) := "old", Namespace(q, 10) := ""]
  }

  function Later(q: string): Store {
    map[Subsystem(q) := "", Namespace(q, 2) := "new", Namespace(q, 10) := "", Qos(q, 10) := ""]
  }

  lemma NothingExtends(q: string, i: nat, m: Store)
    requires forall k | k in m :: !(k.Qos? || k.NsHost?)
    ensures CascadeKeys(DropNamespace(q, i), m) == {}
  {
  }

  /** Gateway 0 is writing, the OMAP holds `m`, and gateway 1 is as given. */
  predicate Stage(s: State, m: Store, other: Gateway) {
    && s.gws == map[0 := Gateway(OmapVersion(s), m, Verified, Resting), 1 := other]
    && s.omap == m && s.writer == Some(0) && s.readers == {}
  }

  /** Nobody is writing, gateway 0 is current, and gateway 1 is as given. */
  predicate Pause(s: State, m: Store, other: Gateway) {
    && s.gws == map[0 := Gateway(OmapVersion(s), m, Idle, Resting), 1 := other]
    && s.omap == m && s.writer == None && s.readers == {}
  }

  lemma NextStage(ss: seq<State>, es: seq<Event>, op: Op, m: Store, m': Store, other: Gateway)
    returns (ss': seq<State>, es': seq<Event>)
    requires IsRun(ss, es) && Stage(ss[|es|], m, other) && Offered(op) && !op.DropIfPresent? && !LocalRaises(op, m)
    requires HeadApplied(op, m) == m' && CascadeKeys(op, m') == {}
    ensures IsRun(ss', es') && ss <= ss' && Stage(ss'[|es'|], m', other)
              && OmapVersion(ss'[|es'|]) == OmapVersion(ss[|es|]) + 1
  {
    ss', es' := RunOperation(ss, es, 0, op);
  }

  lemma EnterStage(ss: seq<State>, es: seq<Event>, m: Store, other: Gateway) returns (ss': seq<State>, es': seq<Event>)
    requires IsRun(ss, es) && Pause(ss[|es|], m, other)
    ensures IsRun(ss', es') && ss <= ss' && Stage(ss'[|es'|], m, other)
              && OmapVersion(ss'[|es'|]) == OmapVersion(ss[|es|])
  {
    ss', es' := RunEnter(ss, es, 0);
  }

  lemma LeaveStage(ss: seq<State>, es: seq<Event>, m: Store, other: Gateway) returns (ss': seq<State>, es': seq<Event>)
    requires IsRun(ss, es) && Stage(ss[|es|], m, other)
    ensures IsRun(ss', es') && ss <= ss' && Pause(ss'[|es'|], m, other)
              && OmapVersion(ss'[|es'|]) == OmapVersion(ss[|es|])
  {
    ss', es' := RunLeave(ss, es, 0);
  }

  /** Gateway 1 has found the OMAP at `m` and is about to send the difference from `old_`. */
  predicate CatchesUp(s: State, old_: Store, m: Store) {
    && 1 in s.gws && s.gws[1].upd.Replaying? && s.gws[1].local == s.gws[1].upd.base == old_
    && s.gws[1].upd.snap == m
  }

  lemma CatchUp(ss: seq<State>, es: seq<Event>, m: Store, old_: Store, v: nat)
    returns (ss': seq<State>, es': seq<Event>, n: nat)
    requires IsRun(ss, es) && Pause(ss[|es|], m, Gateway(v, old_, Idle, Resting)) && v < OmapVersion(ss[|es|])
    ensures IsRun(ss', es') && ss <= ss' && n <= |es'| && CatchesUp(ss'[n], old_, m)
    ensures var t := ss'[|es'|]; Pause(t, m, Gateway(OmapVersion(t), m, Idle, Resting))
  {
    ss', es', n := RunUpdate(ss, es, 1);
  }

  function Only(q: string): Store {
    map[Subsystem(q) := ""]
  }

  /** Gateway 1 starts with nothing and catches up to `Before`. */
  lemma FirstPart(q: string) returns (ss: seq<State>, es: seq<Event>, v: nat, m: nat)
    ensures IsRun(ss, es) && Pause(ss[|es|], Before(q), Gateway(v, Before(q), Idle, Resting))
              && v == OmapVersion(ss[|es|])
    ensures m <= |es| && CatchesUp(ss[m], map[], Before(q))
  {
    var idle := Gateway(1, map[], Idle, Resting);
    var start := State([], map[], None, {}, map[0 := idle, 1 := idle], [], map[1 := 0]);
    ss, es := [start], [];
    ss, es := EnterStage(ss, es, map[], idle);
    var m1 := Only(q);
    ss, es := NextStage(ss, es, Op.Set(Subsystem(q), ""), map[], m1, idle);
    var m2 := m1[Namespace(q, 1) := ""];
    ss, es := NextStage(ss, es, Op.Set(Namespace(q, 1), ""), m1, m2, idle);
    var m3 := m2[Namespace(q, 2) := "old"];
    ss, es := NextStage(ss, es, Op.Set(Namespace(q, 2), "old"), m2, m3, idle);
    assert m3[Namespace(q, 10) := ""] == Before(q);
    ss, es := NextStage(ss, es, Op.Set(Namespace(q, 10), ""), m3, Before(q), idle);
    ss, es := LeaveStage(ss, es, Before(q), idle);
    ss, es, m := CatchUp(ss, es, Before(q), map[], 1);
    v := OmapVersion(ss[|es|]);
  }

  /** Gateway 0 goes on to `Later`, and gateway 1 follows. */
  lemma SecondPart(ss: seq<State>, es: seq<Event>, q: string, v: nat)
    returns (ss': seq<State>, es': seq<Event>, n: nat)
    requires IsRun(ss, es) && v == OmapVersion(ss[|es|])
    requires Pause(ss[|es|], Before(q), Gateway(v, Before(q), Idle, Resting))
    ensures IsRun(ss', es') && ss <= ss' && n <= |es'| && CatchesUp(ss'[n], Before(q), Later(q))
    ensures var t := ss'[|es'|]; Pause(t, Later(q), Gateway(OmapVersion(t), Later(q), Idle, Resting))
  {
    var other := Gateway(v, Before(q), Idle, Resting);
    ss', es' := EnterStage(ss, es, Before(q), other);
    var m1 := Before(q) - {Namespace(q, 1)};
    NothingExtends(q, 1, m1);
    ss', es' := NextStage(ss', es', DropNamespace(q, 1), Before(q), m1, other);
    var m2: Store := map[Subsystem(q) := "", Namespace(q, 10) := ""];
    assert m1 - {Namespace(q, 2)} == m2;
    NothingExtends(q, 2, m2);
    ss', es' := NextStage(ss', es', DropNamespace(q, 2), m1, m2, other);
    ss', es', n := RestOfSecond(ss', es', q, m2, v);
  }

  lemma RestOfSecond(ss: seq<State>, es: seq<Event>, q: string, m2: Store, v: nat)
    returns (ss': seq<State>, es': seq<Event>, n: nat)
    requires IsRun(ss, es) && v < OmapVersion(ss[|es|]) && Stage(ss[|es|], m2, Gateway(v, Before(q), Idle, Resting))
    requires m2 == map[Subsystem(q) := "", Namespace(q, 10) := ""]
    ensures IsRun(ss', es') && ss <= ss' && n <= |es'| && CatchesUp(ss'[n], Before(q), Later(q))
    ensures var t := ss'[|es'|]; Pause(t, Later(q), Gateway(OmapVersion(t), Later(q), Idle, Resting))
  {
    var other := Gateway(v, Before(q), Idle, Resting);
    var m3 := m2[Namespace(q, 2) := "new"];
    ss', es' := NextStage(ss, es, Op.Set(Namespace(q, 2), "new"), m2, m3, other);
    assert m3[Qos(q, 10) := ""] == Later(q);
    ss', es' := NextStage(ss', es', Op.Set(Qos(q, 10), ""), m3, Later(q), other);
    ss', es' := LeaveStage(ss', es', Later(q), other);
    ss', es', n := CatchUp(ss', es', Later(q), Before(q), v);
  }

  /** Gateway 1 drops namespace 1. */
  lemma ThirdPart(ss: seq<State>, es: seq<Event>, q: string) returns (ss': seq<State>, es': seq<Event>)
    requires IsRun(ss, es)
    requires var s := ss[|es|]; Pause(s, Later(q), Gateway(OmapVersion(s), Later(q), Idle, Resting))
    ensures IsRun(ss', es') && ss <= ss'
    ensures var t := ss'[|es'|];
            && 1 in t.gws && t.gws[1] == Gateway(OmapVersion(t), Later(q), Verified, Resting)
            && t.omap == Later(q) - {Qos(q, 10)} && t.omap != t.gws[1].local
  {
    ss', es' := RunEnter(ss, es, 1);
    assert ExtendsDecimal(1, 10);
    assert CascadeKeys(DropNamespace(q, 1), Later(q)) == {Qos(q, 10)};
    ss', es' := RunDisagreeing(ss', es', 1, q);
  }

  // ----- the same run as its updates see it -----

  /** A stored text as a request. The texts of this run differ in fields that cannot change in place. */
  function Request(k: Key, v: string): Replay.Val {
    match k
    case Subsystem(_) => Replay.SubsysVal("", "1", v)
    case Host(_, _) => Replay.HostVal("", v)
    case Namespace(_, i) => Replay.SomeNs(Decimal(i), v)
    case NsHost(_, _, _) => Replay.NsHostVal(false, v)
    case Listener(_, _, _, _, _) => Replay.ListenerVal(false, v)
    case Qos(_, _) => Replay.QosVal(Replay.NO_LIMITS.(rwIos := Some(1000)), v)
    case _ => Replay.OtherVal(v)
  }

  function Requests(m: Store): Replay.State {
    map k | k in m :: Request(k, m[k])
  }

  /** A reading of texts as requests loses no difference: the same keys are removed, new and different. */
  lemma SameDifference(m: Store, m': Store, k: Key)
    ensures var l, n := Requests(m), Requests(m');
            && (Replay.Removed(l, n, k) <==> k in m && k !in m') && (Replay.Added(l, n, k) <==> k in m' && k !in m)
            && (Replay.Differs(l, n, k) <==> k in m && k in m' && m[k] != m'[k])
  {
  }

  lemma RequestsOfRun(q: string)
    ensures Requests(Before(q)) == Replay.BeforeReplacement(q) && Requests(Later(q)) == Replay.AfterReplacement(q)
  {
    RequestsBefore(q);
    RequestsLater(q);
  }

  lemma RequestsBefore(q: string)
    ensures Requests(Before(q)) == Replay.BeforeReplacement(q)
  {
  }

  lemma RequestsLater(q: string)
    ensures Requests(Later(q)) == Replay.AfterReplacement(q)
  {
  }

  /** The target of gateway 1 after its first update. */
  function FirstTarget(q: string): Replay.State {
    Replay.Replayed(map[], {}, map[], Requests(Before(q)))
  }

  /** And after its second one. */
  function SecondTarget(q: string): Replay.State {
    Replay.Replayed(FirstTarget(q), {}, Requests(Before(q)), Requests(Later(q)))
  }

  lemma UuidsDiffer()
    ensures Decimal(1) != Decimal(2) && Decimal(1) != Decimal(10) && Decimal(2) != Decimal(10)
  {
    ParseOfDecimal(1);
    ParseOfDecimal(2);
    ParseOfDecimal(10);
  }

  lemma FirstFits(q: string)
    ensures Replay.FitsTogether(Replay.BeforeReplacement(q))
  {
    UuidsDiffer();
    var n := Replay.BeforeReplacement(q);
    assert forall k | k in n :: k.Subsystem? || k.Namespace?;
  }

  lemma FirstUpdateConverges(q: string)
    requires Free(q) && q != ""
    ensures FirstTarget(q) == Replay.Installed(Requests(Before(q)))
  {
    RequestsOfRun(q);
    Replay.ReplacementBefore(q);
    FirstFits(q);
    Replay.NewGatewayConverges(Requests(Before(q)));
  }

  /** The second update leaves namespace 1, which is in the shared state no more, on the target of gateway 1. */
  lemma TargetKeepsNamespace(q: string)
    requires Free(q) && q != ""
    ensures Namespace(q, 1) !in Later(q) && Namespace(q, 1) in SecondTarget(q)
  {
    RequestsOfRun(q);
    FirstUpdateConverges(q);
    Replay.StaleNamespaceStays(q, {});
  }

  /** The condition matters: a run of two gateways at whose end gateway 1 is at the OMAP's version and between two
      handler calls, and still has QoS settings that the OMAP has lost. It has caught up from nothing to `Before`
      and from there to `Later`; these two updates leave namespace 1 on its target, where a client deletes it. */
  lemma CopiesCanDrift(q: string) returns (ss: seq<State>, es: seq<Event>, m: nat, n: nat)
    ensures IsRun(ss, es) && m <= |es| && n <= |es|
    ensures CatchesUp(ss[m], map[], Before(q)) && CatchesUp(ss[n], Before(q), Later(q))
    ensures Free(q) && q != "" ==> Namespace(q, 1) !in Later(q) && Namespace(q, 1) in SecondTarget(q)
    ensures var t := ss[|es|];
            && 1 in t.gws && t.gws[1].version == OmapVersion(t) && !BetweenHalves(t.gws[1].rpc)
            && !CopyIsHistory(t.log, t.gws[1])
            && Qos(q, 10) in t.gws[1].local && Qos(q, 10) !in t.omap
  {
    if Free(q) && q != "" { TargetKeepsNamespace(q); }
    var v;
    ss, es, v, m := FirstPart(q);
    ghost var first := ss;
    ss, es, n := SecondPart(ss, es, q, v);
    assert ss[m] == first[m];
    ghost var second := ss;
    ss, es := ThirdPart(ss, es, q);
    assert ss[n] == second[n] && ss[m] == second[m];
    var t := ss[|es|];
    InvHolds(ss, es, |es|);
    HistAppend(t.log, Del(Version), 1);
    assert t.omap == Hist(t.log, OmapVersion(t));
  }
}
