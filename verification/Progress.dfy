/** What a gateway group can always do: no lock is kept for ever, every request that is accepted can be finished with
    the effect of its operation, and every gateway that is behind can catch up. */
module Progress {
  import opened Text
  import opened StateKeys
  import opened StateOps
  import opened Protocol

  // ----- longer runs -----

  lemma Extend(ss: seq<State>, es: seq<Event>, e: Event)
    requires IsRun(ss, es) && Enabled(ss[|es|], e)
    ensures IsRun(ss + [Step(ss[|es|], e)], es + [e])
  {
    var ss', es' := ss + [Step(ss[|es|], e)], es + [e];
    forall i | 0 <= i < |es'| ensures Moves(ss'[i], es'[i], ss'[i + 1]) {
      if i < |es| { assert Moves(ss[i], es[i], ss[i + 1]); }
    }
  }

  /** A run goes on from its last state by an enabled event. */
  ghost predicate GoesOn(ss: seq<State>, es: seq<Event>, ss': seq<State>, es': seq<Event>, t: State) {
    IsRun(ss', es') && ss <= ss' && |es| < |es'| && ss'[|es'|] == t
  }

  lemma OneMore(ss: seq<State>, es: seq<Event>, e: Event) returns (ss': seq<State>, es': seq<Event>)
    requires IsRun(ss, es) && Enabled(ss[|es|], e)
    ensures GoesOn(ss, es, ss', es', Step(ss[|es|], e))
  {
    Extend(ss, es, e);
    ss', es' := ss + [Step(ss[|es|], e)], es + [e];
  }

  // ----- locks -----

  /** In every run the exclusive lock can be taken exactly when no gateway is serving a request or reading. */
  lemma LockIsFreeExactly(ss: seq<State>, es: seq<Event>, n: nat, g: Gw)
    requires IsRun(ss, es) && n <= |es| && g in ss[n].gws
    ensures var s := ss[n];
            Enabled(s, Lock(g)) <==> forall h | h in s.gws :: s.gws[h].rpc == Idle && !s.gws[h].upd.Reading?
  {
    InvHolds(ss, es, n);
    var s := ss[n];
    if s.writer.Some? { assert s.gws[s.writer.value].rpc != Idle; }
    if forall h | h in s.gws :: s.gws[h].rpc == Idle && !s.gws[h].upd.Reading? {
      forall h ensures h !in s.readers {}
      assert s.readers == {};
    }
  }

  /** And the shared lock exactly when no gateway is serving a request; other readers do not matter. */
  lemma SharedLockIsFreeExactly(ss: seq<State>, es: seq<Event>, n: nat, g: Gw)
    requires IsRun(ss, es) && n <= |es| && g in ss[n].gws
    ensures var s := ss[n];
            Enabled(s, StartRead(g)) <==> s.gws[g].upd == Resting && forall h | h in s.gws :: s.gws[h].rpc == Idle
  {
    InvHolds(ss, es, n);
    var s := ss[n];
    if s.writer.Some? { assert s.gws[s.writer.value].rpc != Idle; }
  }

  /** A gateway that is behind is refused: after the version check it is as it was before it took the lock, and so is
      everything else, the lock included. */
  lemma BehindIsRefused(s: State, g: Gw)
    requires Enabled(s, Lock(g)) && s.gws[g].version < OmapVersion(s)
    ensures var locked := Step(s, Lock(g)); Enabled(locked, Check(g)) && Step(locked, Check(g)) == s
  {
    assert s.gws[g].(rpc := Idle) == s.gws[g];
    assert Step(Step(s, Lock(g)), Check(g)).gws == s.gws;
  }

  /** In every run a gateway that has the lock and is behind gives it up with the version check, with its request
      thread idle and nothing else changed; one that is current keeps it. */
  lemma CheckDecides(ss: seq<State>, es: seq<Event>, n: nat, g: Gw)
    requires IsRun(ss, es) && n <= |es| && g in ss[n].gws && ss[n].gws[g].rpc == Locked
    ensures var s := ss[n]; Enabled(s, Check(g)) && s.writer == Some(g) && s.gws[g].version <= OmapVersion(s)
    ensures var s, t := ss[n], Step(ss[n], Check(g));
            && t.log == s.log && t.omap == s.omap && t.readers == s.readers && t.done == s.done
            && t.gws.Keys == s.gws.Keys && (forall h | h in s.gws && h != g :: t.gws[h] == s.gws[h])
            && (t.gws[g].version, t.gws[g].local, t.gws[g].upd) == (s.gws[g].version, s.gws[g].local, s.gws[g].upd)
            && (s.gws[g].version < OmapVersion(s) ==> t.writer == None && t.gws[g].rpc == Idle)
            && (s.gws[g].version == OmapVersion(s) ==> t.writer == Some(g) && t.gws[g].rpc == Verified)
  {
    InvHolds(ss, es, n);
    var s := ss[n];
    assert GatewayOk(s.log, s.bounds, s.gws[g]);
  }

  // ----- finishing a request -----

  /** Only the request thread of gateway `g`, its copy and its version may have changed. */
  predicate OnlyRequest(s: State, t: State, g: Gw) {
    && g in s.gws && g in t.gws && t.gws == s.gws[g := t.gws[g]] && t.gws[g].upd == s.gws[g].upd
    && t.readers == s.readers && s.log <= t.log
  }

  lemma OnlyRequestOn(s: State, t: State, u: State, g: Gw)
    requires OnlyRequest(s, t, g) && OnlyRequest(t, u, g)
    ensures OnlyRequest(s, u, g)
  {
    assert s.gws[g := t.gws[g]][g := u.gws[g]] == s.gws[g := u.gws[g]];
  }

  /** The removals of the OMAP half. */
  lemma {:induction false} RunTail(ss: seq<State>, es: seq<Event>, g: Gw) returns (ss': seq<State>, es': seq<Event>)
    requires IsRun(ss, es) && g in ss[|es|].gws && ss[|es|].gws[g].rpc.OmapTail?
    ensures IsRun(ss', es') && ss <= ss' && OnlyRequest(ss[|es|], ss'[|es'|], g)
    ensures var s, t := ss[|es|], ss'[|es'|]; var rpc := s.gws[g].rpc;
            && t.gws[g].rpc == LocalHead(rpc.op) && t.gws[g].local == s.gws[g].local && t.writer == s.writer
            && t.omap == s.omap - rpc.todo && OmapVersion(t) == OmapVersion(s) + |rpc.todo|
            && t.done == s.done + [rpc.op]
    decreases |ss[|es|].gws[g].rpc.todo|
  {
    var s := ss[|es|];
    var todo := s.gws[g].rpc.todo;
    if todo == {} {
      ss', es' := OneMore(ss, es, EndOmap(g));
      assert s.omap - todo == s.omap;
    } else {
      var k :| k in todo;
      InvHolds(ss, es, |es|);
      assert WriterOk(s.omap, OmapVersion(s), s.done, s.gws[g]);
      ss', es' := OneMore(ss, es, WriteTail(g, k));
      var mid := ss'[|es'|];
      assert OnlyRequest(s, mid, g);
      ss', es' := RunTail(ss', es', g);
      OnlyRequestOn(s, mid, ss'[|es'|], g);
      assert (s.omap - {k}) - (todo - {k}) == s.omap - todo;
    }
  }

  /** The removals of the local half. */
  lemma {:induction false} RunLocalTail(ss: seq<State>, es: seq<Event>, g: Gw)
    returns (ss': seq<State>, es': seq<Event>)
    requires IsRun(ss, es) && g in ss[|es|].gws && ss[|es|].gws[g].rpc.LocalTail?
    ensures IsRun(ss', es') && ss <= ss' && OnlyRequest(ss[|es|], ss'[|es'|], g)
    ensures var s, t := ss[|es|], ss'[|es'|];
            && t.gws[g].rpc == Verified && t.gws[g].local == s.gws[g].local - s.gws[g].rpc.todo && t.writer == s.writer
            && t.omap == s.omap && t.log == s.log && t.done == s.done
    decreases |ss[|es|].gws[g].rpc.todo|
  {
    var s := ss[|es|];
    var todo := s.gws[g].rpc.todo;
    if todo == {} {
      ss', es' := OneMore(ss, es, EndLocal(g));
      assert s.gws[g].local - todo == s.gws[g].local;
    } else {
      var k :| k in todo;
      ss', es' := OneMore(ss, es, LocalStep(g, k));
      var mid := ss'[|es'|];
      assert OnlyRequest(s, mid, g);
      ss', es' := RunLocalTail(ss', es', g);
      OnlyRequestOn(s, mid, ss'[|es'|], g);
      assert (s.gws[g].local - {k}) - (todo - {k}) == s.gws[g].local - todo;
    }
  }

  /** The local half. */
  lemma RunLocalHalf(ss: seq<State>, es: seq<Event>, g: Gw) returns (ss': seq<State>, es': seq<Event>)
    requires IsRun(ss, es) && g in ss[|es|].gws && ss[|es|].gws[g].rpc.LocalHead?
    ensures IsRun(ss', es') && ss <= ss' && OnlyRequest(ss[|es|], ss'[|es'|], g)
    ensures var s, t := ss[|es|], ss'[|es'|];
            && t.gws[g].rpc == Verified && t.gws[g].local == LocalHalf(s.gws[g].rpc.op, s.gws[g].local)
            && t.writer == s.writer && t.omap == s.omap && t.log == s.log && t.done == s.done
  {
    var s := ss[|es|];
    ss', es' := OneMore(ss, es, StartLocal(g));
    var mid := ss'[|es'|];
    assert OnlyRequest(s, mid, g);
    if !LocalRaises(s.gws[g].rpc.op, s.gws[g].local) {
      ss', es' := RunLocalTail(ss', es', g);
      OnlyRequestOn(s, mid, ss'[|es'|], g);
    }
  }

  /** The OMAP half. */
  lemma RunOmapHalf(ss: seq<State>, es: seq<Event>, g: Gw) returns (ss': seq<State>, es': seq<Event>)
    requires IsRun(ss, es) && g in ss[|es|].gws && ss[|es|].gws[g].rpc.OmapHead?
    ensures IsRun(ss', es') && ss <= ss' && OnlyRequest(ss[|es|], ss'[|es'|], g)
    ensures var s, t := ss[|es|], ss'[|es'|]; var op := s.gws[g].rpc.op;
            && t.gws[g].rpc == LocalHead(op) && t.gws[g].local == s.gws[g].local && t.writer == s.writer
            && t.omap == OmapHalf(op, s.omap) && t.done == s.done + [op]
            && OmapVersion(t) == OmapVersion(s) + Writes(op, s.omap)
  {
    var s := ss[|es|];
    InvHolds(ss, es, |es|);
    assert WriterOk(s.omap, OmapVersion(s), s.done, s.gws[g]);
    ss', es' := OneMore(ss, es, WriteHead(g));
    var mid := ss'[|es'|];
    assert OnlyRequest(s, mid, g);
    assert mid.omap == HeadApplied(s.gws[g].rpc.op, s.omap);
    ss', es' := RunTail(ss', es', g);
    OnlyRequestOn(s, mid, ss'[|es'|], g);
  }

  /** How many versions an operation consumes. */
  function Writes(op: Op, m: Store): nat {
    (if op.DropIfPresent? && op.k !in m then 0 else 1) + |CascadeKeys(op, HeadApplied(op, m))|
  }

  /** How many stages of a request are still to come. */
  function Stage(rpc: Rpc): nat {
    match rpc
    case Idle => 0
    case Verified => 1
    case LocalTail(_, _) => 2
    case LocalHead(_) => 3
    case OmapTail(_, _) => 4
    case OmapHead(_) => 5
    case Locked => 6
  }

  lemma NextStageOf(ss: seq<State>, es: seq<Event>, g: Gw) returns (ss': seq<State>, es': seq<Event>)
    requires IsRun(ss, es) && ss[|es|].writer == Some(g) && g in ss[|es|].gws && !ss[|es|].gws[g].rpc.Idle?
    ensures IsRun(ss', es') && ss <= ss' && OnlyRequest(ss[|es|], ss'[|es'|], g)
    ensures var s, t := ss[|es|], ss'[|es'|];
            && Stage(t.gws[g].rpc) < Stage(s.gws[g].rpc)
            && t.writer == if t.gws[g].rpc.Idle? then None else Some(g)
  {
    var rpc := ss[|es|].gws[g].rpc;
    if rpc.Locked? { ss', es' := OneMore(ss, es, Check(g)); }
    else if rpc.OmapHead? { ss', es' := RunOmapHalf(ss, es, g); }
    else if rpc.OmapTail? { ss', es' := RunTail(ss, es, g); }
    else if rpc.LocalHead? { ss', es' := RunLocalHalf(ss, es, g); }
    else if rpc.LocalTail? { ss', es' := RunLocalTail(ss, es, g); }
    else { ss', es' := OneMore(ss, es, Unlock(g)); }
  }

  /** From every state of every run the gateway in the exclusive section can leave it by steps of its own. */
  lemma {:induction false} SectionCanBeLeft(ss: seq<State>, es: seq<Event>, g: Gw)
    returns (ss': seq<State>, es': seq<Event>)
    requires IsRun(ss, es) && ss[|es|].writer == Some(g)
    ensures IsRun(ss', es') && ss <= ss'
    ensures OnlyRequest(ss[|es|], ss'[|es'|], g) && ss'[|es'|].writer == None && ss'[|es'|].gws[g].rpc == Idle
    decreases if g in ss[|es|].gws then Stage(ss[|es|].gws[g].rpc) else 0
  {
    InvHolds(ss, es, |es|);
    ss', es' := NextStageOf(ss, es, g);
    var mid := ss'[|es'|];
    if mid.writer == Some(g) {
      ss', es' := SectionCanBeLeft(ss', es', g);
      OnlyRequestOn(ss[|es|], mid, ss'[|es'|], g);
    }
  }

  /** A gateway that is current can serve every request the handlers make, when the lock is free: the OMAP then holds
      the result of the operation, its copy what the local half makes of it, and all is as idle as before. */
  lemma RequestCanBeServed(ss: seq<State>, es: seq<Event>, g: Gw, op: Op)
    returns (ss': seq<State>, es': seq<Event>)
    requires IsRun(ss, es) && Enabled(ss[|es|], Lock(g)) && ss[|es|].gws[g].version == OmapVersion(ss[|es|])
    requires Offered(op)
    ensures IsRun(ss', es') && ss <= ss' && OnlyRequest(ss[|es|], ss'[|es'|], g)
    ensures var s, t := ss[|es|], ss'[|es'|];
            && t.omap == OmapHalf(op, s.omap) && t.gws[g].local == LocalHalf(op, s.gws[g].local)
            && t.gws[g].version == OmapVersion(t) == OmapVersion(s) + Writes(op, s.omap)
            && t.writer == None && t.gws[g].rpc == Idle && t.done == s.done + [op]
  {
    var s := ss[|es|];
    ss', es' := OneMore(ss, es, Lock(g));
    ss', es' := OneMore(ss', es', Check(g));
    ss', es' := OneMore(ss', es', Begin(g, op));
    var mid := ss'[|es'|];
    assert OnlyRequest(s, mid, g);
    ss', es' := RunOmapHalf(ss', es', g);
    OnlyRequestOn(s, mid, ss'[|es'|], g);
    var half := ss'[|es'|];
    ss', es' := RunLocalHalf(ss', es', g);
    OnlyRequestOn(s, half, ss'[|es'|], g);
    InvHolds(ss', es', |es'|);
    var last := ss'[|es'|];
    assert WriterOk(last.omap, OmapVersion(last), last.done, last.gws[g]);
    ss', es' := OneMore(ss', es', Unlock(g));
    OnlyRequestOn(s, last, ss'[|es'|], g);
  }

  // ----- catching up -----

  /** The first half of an update: the gateway has read the OMAP and found itself behind. */
  lemma RunRead(ss: seq<State>, es: seq<Event>, g: Gw) returns (ss': seq<State>, es': seq<Event>)
    requires IsRun(ss, es)
    requires var s := ss[|es|];
             && s.writer == None && g in s.gws && s.gws[g].rpc.Idle? && s.gws[g].upd.Resting?
             && s.gws[g].version < OmapVersion(s)
    ensures IsRun(ss', es') && ss <= ss'
    ensures var s, t := ss[|es|], ss'[|es'|];
            && t.omap == s.omap && OmapVersion(t) == OmapVersion(s) && t.writer == None && t.readers == s.readers - {g}
            && t.log == s.log && t.done == s.done
            && t.gws == s.gws[g := s.gws[g].(upd := Replaying(OmapVersion(s), s.omap, s.gws[g].local))]
  {
    var s := ss[|es|];
    var gw := s.gws[g];
    var ver := OmapVersion(s);
    ss', es' := OneMore(ss, es, StartRead(g));
    ss', es' := OneMore(ss', es', ReadPage(g, s.omap.Keys, true));
    assert map[] + (map k | k in s.omap.Keys && k in s.omap :: s.omap[k]) == s.omap;
    assert ss'[|es'|].gws == s.gws[g := gw.(upd := Reading(Some(ver), s.omap))] && ss'[|es'|].omap == s.omap;
    ss', es' := OneMore(ss', es', EndRead(g));
    assert ss'[|es'|].gws == s.gws[g := gw.(upd := Fetched(ver, s.omap))] && ss'[|es'|].readers == s.readers - {g};
    ss', es' := OneMore(ss', es', Decide(g));
  }

  /** A whole update; at `m` it computes its difference. */
  lemma RunUpdate(ss: seq<State>, es: seq<Event>, g: Gw) returns (ss': seq<State>, es': seq<Event>, m: nat)
    requires IsRun(ss, es)
    requires var s := ss[|es|];
             && s.writer == None && g in s.gws && s.gws[g].rpc.Idle? && s.gws[g].upd.Resting?
             && s.gws[g].version < OmapVersion(s)
    ensures IsRun(ss', es') && ss <= ss' && m <= |es'|
    ensures var s, t := ss[|es|], ss'[|es'|];
            && t.omap == s.omap && OmapVersion(t) == OmapVersion(s) && t.writer == None && t.readers == s.readers - {g}
            && t.log == s.log && t.done == s.done
            && t.gws == s.gws[g := Gateway(OmapVersion(s), s.omap, Idle, Resting)]
            && g in ss'[m].gws && ss'[m].gws[g].upd == Replaying(OmapVersion(s), s.omap, s.gws[g].local)
            && ss'[m].gws[g].local == s.gws[g].local
  {
    ss', es' := RunRead(ss, es, g);
    m := |es'|;
    var mid := ss';
    ss', es' := OneMore(ss', es', Reset(g));
    ss', es' := OneMore(ss', es', SetVersion(g));
    assert ss'[m] == mid[m];
  }


  /** Only the update thread of gateway `g`, its copy and its version may have changed. */
  ghost predicate OnlyUpdate(s: State, t: State, g: Gw) {
    && g in s.gws && g in t.gws && t.gws == s.gws[g := t.gws[g]] && t.gws[g].rpc == s.gws[g].rpc
    && t.writer == s.writer && t.log == s.log && t.omap == s.omap && t.done == s.done
    && forall h | h != g :: h in t.readers <==> h in s.readers
  }

  /** Whatever an update is doing, it can end. */
  lemma UpdateCanEnd(ss: seq<State>, es: seq<Event>, g: Gw) returns (ss': seq<State>, es': seq<Event>)
    requires IsRun(ss, es) && g in ss[|es|].gws
    ensures IsRun(ss', es') && ss <= ss' && OnlyUpdate(ss[|es|], ss'[|es'|], g)
    ensures ss'[|es'|].gws[g].upd == Resting && g !in ss'[|es'|].readers
  {
    InvHolds(ss, es, |es|);
    var upd := ss[|es|].gws[g].upd;
    if upd.Resting? {
      ss', es' := ss, es;
    } else if upd.Adopting? {
      ss', es' := OneMore(ss, es, SetVersion(g));
    } else {
      ss', es' := OneMore(ss, es, AbortUpdate(g));
    }
  }

  /** The gateway has caught up. */
  predicate CaughtUp(s: State, g: Gw) {
    g in s.gws && s.gws[g].version == OmapVersion(s) && s.gws[g].upd == Resting && g !in s.readers
  }

  lemma OnlyUpdateOn(s: State, t: State, u: State, g: Gw)
    requires OnlyUpdate(s, t, g) && OnlyUpdate(t, u, g)
    ensures OnlyUpdate(s, u, g)
  {
    assert s.gws[g := t.gws[g]][g := u.gws[g]] == s.gws[g := u.gws[g]];
  }

  lemma VersionAtMost(ss: seq<State>, es: seq<Event>, g: Gw)
    requires IsRun(ss, es) && g in ss[|es|].gws
    ensures ss[|es|].gws[g].version <= OmapVersion(ss[|es|])
    ensures g !in ss[|es|].readers <==> !ss[|es|].gws[g].upd.Reading?
    ensures ss[|es|].writer == None ==> ss[|es|].gws[g].rpc == Idle
  {
    InvHolds(ss, es, |es|);
    assert GatewayOk(ss[|es|].log, ss[|es|].bounds, ss[|es|].gws[g]);
  }

  /** A gateway that is behind can catch up whenever no gateway is serving a request: its copy becomes the OMAP and its
      version the OMAP's. */
  lemma BehindCanCatchUp(ss: seq<State>, es: seq<Event>, g: Gw) returns (ss': seq<State>, es': seq<Event>)
    requires IsRun(ss, es) && g in ss[|es|].gws && ss[|es|].writer == None && ss[|es|].gws[g].upd == Resting
    ensures IsRun(ss', es') && ss <= ss' && OnlyUpdate(ss[|es|], ss'[|es'|], g) && CaughtUp(ss'[|es'|], g)
    ensures ss[|es|].gws[g].version < OmapVersion(ss[|es|]) ==> ss'[|es'|].gws[g].local == ss'[|es'|].omap
  {
    VersionAtMost(ss, es, g);
    if ss[|es|].gws[g].version < OmapVersion(ss[|es|]) {
      var m;
      ss', es', m := RunUpdate(ss, es, g);
      VersionAtMost(ss', es', g);
    } else {
      ss', es' := ss, es;
    }
  }

  /** All is quiet: no lock is held, no thread is busy, and every gateway is current. */
  predicate AtRest(s: State) {
    && s.writer == None && s.readers == {}
    && forall g | g in s.gws :: s.gws[g].rpc == Idle && s.gws[g].upd == Resting && s.gws[g].version == OmapVersion(s)
  }

  predicate Quiet(s: State, g: Gw) {
    g in s.gws && s.gws[g].rpc == Idle && s.gws[g].upd == Resting && s.gws[g].version == OmapVersion(s)
  }

  lemma OneCatchesUp(ss: seq<State>, es: seq<Event>, g: Gw) returns (ss': seq<State>, es': seq<Event>)
    requires IsRun(ss, es) && g in ss[|es|].gws && ss[|es|].writer == None
    ensures IsRun(ss', es') && ss <= ss' && OnlyUpdate(ss[|es|], ss'[|es'|], g) && Quiet(ss'[|es'|], g)
    ensures forall h | h != g && Quiet(ss[|es|], h) :: Quiet(ss'[|es'|], h)
  {
    ss', es' := UpdateCanEnd(ss, es, g);
    var mid := ss'[|es'|];
    ss', es' := BehindCanCatchUp(ss', es', g);
    OnlyUpdateOn(ss[|es|], mid, ss'[|es'|], g);
    VersionAtMost(ss, es, g);
  }

  lemma {:induction false} CatchUpAll(ss: seq<State>, es: seq<Event>, todo: set<Gw>)
    returns (ss': seq<State>, es': seq<Event>)
    requires IsRun(ss, es) && ss[|es|].writer == None && todo <= ss[|es|].gws.Keys
    requires forall g | g in ss[|es|].gws && g !in todo :: Quiet(ss[|es|], g)
    ensures IsRun(ss', es') && ss <= ss' && ss'[|es'|].writer == None && ss'[|es'|].log == ss[|es|].log
    ensures ss'[|es'|].gws.Keys == ss[|es|].gws.Keys && forall g | g in ss'[|es'|].gws :: Quiet(ss'[|es'|], g)
    decreases todo
  {
    ss', es' := ss, es;
    if todo != {} {
      var g :| g in todo;
      ss', es' := OneCatchesUp(ss, es, g);
      ss', es' := CatchUpAll(ss', es', todo - {g});
    }
  }

  /** From every state of every run the group can come to rest: a gateway that serves a request finishes or is refused,
      updates end, and everybody catches up. When all operations have agreed, all copies are then the OMAP. */
  lemma GroupCanComeToRest(ss: seq<State>, es: seq<Event>) returns (ss': seq<State>, es': seq<Event>)
    requires IsRun(ss, es)
    ensures IsRun(ss', es') && ss <= ss' && AtRest(ss'[|es'|]) && ss[|es|].log <= ss'[|es'|].log
    ensures ss'[|es'|].gws.Keys == ss[|es|].gws.Keys
    ensures var t := ss'[|es'|]; AllAgree(t.done) ==> forall g | g in t.gws :: t.gws[g].local == t.omap
  {
    InvHolds(ss, es, |es|);
    ss', es' := ss, es;
    if ss[|es|].writer.Some? { ss', es' := SectionCanBeLeft(ss, es, ss[|es|].writer.value); }
    var mid := ss'[|es'|];
    assert mid.writer == None && mid.gws.Keys == ss[|es|].gws.Keys && ss[|es|].log <= mid.log;
    ss', es' := CatchUpAll(ss', es', mid.gws.Keys);
    var t := ss'[|es'|];
    InvHolds(ss', es', |es'|);
    forall g ensures g !in t.readers { assert g in t.gws ==> Quiet(t, g); }
    forall g | g in t.gws
      ensures t.gws[g].rpc == Idle && t.gws[g].upd == Resting && t.gws[g].version == OmapVersion(t)
    {
      assert Quiet(t, g);
    }
    if AllAgree(t.done) { RestingCopies(ss', es'); }
  }

  lemma RestingCopies(ss: seq<State>, es: seq<Event>)
    requires IsRun(ss, es) && AtRest(ss[|es|]) && AllAgree(ss[|es|].done)
    ensures var t := ss[|es|]; forall g | g in t.gws :: t.gws[g].local == t.omap
  {
    var t := ss[|es|];
    forall g | g in t.gws ensures t.gws[g].local == t.omap { ReplicaIsHistory(ss, es, |es|, g); }
  }
}
