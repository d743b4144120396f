/** ANA states: what the monitor sends, what the gateway remembers of it, and what its listeners are set to. */
module Ana {
  import opened Text

  datatype Address = Address(adrfam: string, traddr: string, trsvcid: nat)

  /** A listener is active when it belongs to this host and exists in SPDK. */
  datatype Listener = Listener(address: Address, secure: bool, active: bool)

  /** The state of one group. */
  datatype GroupState = GroupState(group: nat, optimized: bool)

  /** The states the monitor sends for one subsystem. */
  datatype SubsystemStates = SubsystemStates(nqn: string, states: seq<GroupState>)

  type Request = seq<SubsystemStates>

  /** One group of one listener of one subsystem. */
  datatype Path = Path(nqn: string, address: Address, group: nat)

  type AnaMap = map<string, map<nat, bool>>
  type Listeners = map<string, set<Listener>>

  /** The gateway's ANA bookkeeping, and the paths that SPDK has as optimized. */
  datatype Svc = Svc(anaMap: AnaMap, maxNs: map<string, nat>, listeners: Listeners, optimized: set<Path>)

  function Of(m: Listeners, nqn: string): set<Listener> {
    if nqn in m then m[nqn] else {}
  }

  predicate HasActive(ls: set<Listener>, a: Address) {
    exists l :: l in ls && l.active && l.address == a
  }

  function Remembered(m: AnaMap, nqn: string, g: nat): Option<bool> {
    if nqn in m && g in m[nqn] then Some(m[nqn][g]) else None
  }

  /** The last state a list has for a group. */
  function LastIn(states: seq<GroupState>, g: nat): Option<bool> {
    if states == [] then None
    else
      var last := states[|states| - 1];
      if last.group == g then Some(last.optimized) else LastIn(states[..|states| - 1], g)
  }

  /** The last state a request has for a group of a subsystem. */
  function LastOf(r: Request, nqn: string, g: nat): Option<bool> {
    if r == [] then None
    else
      var last := r[|r| - 1];
      if last.nqn == nqn && LastIn(last.states, g).Some? then LastIn(last.states, g) else LastOf(r[..|r| - 1], nqn, g)
  }

  /** The list has a state for the group, and no later one. */
  predicate LastAt(states: seq<GroupState>, j: nat, g: nat) {
    j < |states| && states[j].group == g && forall k | j < k < |states| :: states[k].group != g
  }

  lemma {:induction false} LastInIs(states: seq<GroupState>, g: nat)
    ensures LastIn(states, g).None? <==> forall j | 0 <= j < |states| :: states[j].group != g
    ensures forall j: nat | LastAt(states, j, g) :: LastIn(states, g) == Some(states[j].optimized)
  {
    if states != [] {
      var init := states[..|states| - 1];
      LastInIs(init, g);
      forall j: nat | LastAt(states, j, g) ensures LastIn(states, g) == Some(states[j].optimized) {
        if j < |init| { assert LastAt(init, j, g); }
      }
      if states[|states| - 1].group != g { assert forall j | 0 <= j < |init| :: init[j] == states[j]; }
    }
  }

  function Or(a: Option<bool>, b: Option<bool>): Option<bool> {
    if a.Some? then a else b
  }

  // ----- steps -----

  datatype Event =
    | SetStates(request: Request)
    | CreateSubsystem(nqn: string, maxNs: nat)
    | DeleteSubsystem(nqn: string)
    | CreateListener(nqn: string, listener: Listener)
    | DeleteListener(nqn: string, address: Address)
    | FailStates(request: Request)
    | HalfCreateListener(nqn: string, listener: Listener)

  /** What a request that fails half way may have changed: only the groups it is about. */
  ghost predicate OnlyAbout(r: Request, s: Svc, s': Svc) {
    && s'.maxNs == s.maxNs && s'.listeners == s.listeners
    && (forall nqn, g: nat | LastOf(r, nqn, g).None? :: Remembered(s'.anaMap, nqn, g) == Remembered(s.anaMap, nqn, g))
    && (forall p: Path | LastOf(r, p.nqn, p.group).None? :: p in s'.optimized <==> p in s.optimized)
  }

  /** What an operation does. `FailStates` and `HalfCreateListener` stand for requests that fail half way. */
  ghost predicate Step(s: Svc, e: Event, s': Svc) {
    match e
    case SetStates(r) =>
      && s'.maxNs == s.maxNs && s'.listeners == s.listeners
      && (forall nqn, g: nat :: Remembered(s'.anaMap, nqn, g) == Or(LastOf(r, nqn, g), Remembered(s.anaMap, nqn, g)))
      && (forall p: Path :: p in s'.optimized <==>
            if p.nqn in s.maxNs && HasActive(Of(s.listeners, p.nqn), p.address) && LastOf(r, p.nqn, p.group).Some?
            then LastOf(r, p.nqn, p.group).value else p in s.optimized)
    case CreateSubsystem(nqn, m) =>
      nqn !in s.maxNs && s' == s.(maxNs := s.maxNs[nqn := m])
    case DeleteSubsystem(nqn) =>
      && nqn in s.maxNs && s'.anaMap == s.anaMap && s'.maxNs == s.maxNs - {nqn} && s'.listeners == s.listeners - {nqn}
      && (forall p: Path :: p in s'.optimized <==> p in s.optimized && p.nqn != nqn)
    case CreateListener(nqn, l) =>
      && (l.active ==> nqn in s.maxNs)
      && s'.anaMap == s.anaMap && s'.maxNs == s.maxNs && s'.listeners == s.listeners[nqn := Of(s.listeners, nqn) + {l}]
      && (forall p: Path :: p in s'.optimized <==>
            if l.active && p.nqn == nqn && p.address == l.address
            then 1 <= p.group <= s.maxNs[nqn] && Remembered(s.anaMap, nqn, p.group) == Some(true)
            else p in s.optimized)
    case DeleteListener(nqn, a) =>
      && s'.anaMap == s.anaMap && s'.maxNs == s.maxNs
      && (forall n :: Of(s'.listeners, n) ==
                        if n == nqn then set l | l in Of(s.listeners, n) && l.address != a else Of(s.listeners, n))
      && (forall p: Path :: p in s'.optimized ==> p in s.optimized)
      && (forall p: Path :: p in s.optimized && !(p.nqn == nqn && p.address == a) ==> p in s'.optimized)
    case FailStates(r) => OnlyAbout(r, s, s')
    case HalfCreateListener(nqn, l) =>
      && l.active && nqn in s.maxNs && s'.anaMap == s.anaMap && s'.maxNs == s.maxNs
      && s'.listeners == s.listeners[nqn := Of(s.listeners, nqn) + {l}]
      && (forall p: Path | !(p.nqn == nqn && p.address == l.address) :: p in s'.optimized <==> p in s.optimized)
  }

  /** The listener is active. */
  predicate HasPath(s: Svc, p: Path) {
    HasActive(Of(s.listeners, p.nqn), p.address)
  }

  /** A path of an active listener, for a group its subsystem can use, is optimized exactly if the remembered
      state is; and only existing subsystems have active listeners. */
  ghost predicate Agrees(s: Svc, p: Path) {
    HasPath(s, p) ==>
      && p.nqn in s.maxNs
      && (1 <= p.group <= s.maxNs[p.nqn] ==> (p in s.optimized <==> Remembered(s.anaMap, p.nqn, p.group) == Some(true)))
  }

  /** Only existing subsystems have active listeners. */
  ghost predicate Housed(s: Svc) {
    forall nqn, a: Address :: HasActive(Of(s.listeners, nqn), a) ==> nqn in s.maxNs
  }

  /** The request fails half way and is about the path. */
  predicate Disturbs(e: Event, p: Path) {
    match e
    case FailStates(r) => LastOf(r, p.nqn, p.group).Some?
    case HalfCreateListener(nqn, l) => nqn == p.nqn && l.address == p.address
    case _ => false
  }

  /** The request succeeds and says something about the path's group. */
  predicate Settles(e: Event, p: Path) {
    e.SetStates? && LastOf(e.request, p.nqn, p.group).Some?
  }

  lemma StepKeepsHoused(s: Svc, e: Event, s': Svc)
    requires Housed(s) && Step(s, e, s')
    ensures Housed(s')
  {
    forall nqn, a: Address | HasActive(Of(s'.listeners, nqn), a) ensures nqn in s'.maxNs {
      var x :| x in Of(s'.listeners, nqn) && x.active && x.address == a;
      if x in Of(s.listeners, nqn) { assert HasActive(Of(s.listeners, nqn), a); }
    }
  }

  /** Listeners that were there before an operation that is not about their path. */
  lemma OldListener(s: Svc, e: Event, s': Svc, p: Path)
    requires Step(s, e, s') && HasPath(s', p)
    ensures HasPath(s, p) || ((e.CreateListener? || e.HalfCreateListener?) && e.nqn == p.nqn
                              && e.listener.address == p.address && e.listener.active)
  {
    var x :| x in Of(s'.listeners, p.nqn) && x.active && x.address == p.address;
    if x in Of(s.listeners, p.nqn) { assert HasPath(s, p); }
  }

  /** Every operation keeps a path in line with the remembered state, unless it fails half way and is about the
      path; and a successful request about the path's group brings it back in line. */
  lemma StepKeepsAgreement(s: Svc, e: Event, s': Svc, p: Path)
    requires Housed(s) && Step(s, e, s') && !Disturbs(e, p) && (Agrees(s, p) || Settles(e, p))
    ensures Agrees(s', p)
  {
    StepKeepsHoused(s, e, s');
    if HasPath(s', p) { OldListener(s, e, s', p); }
  }

  // ----- runs -----

  /** The requests of a run that succeeded, in order. */
  function Received(es: seq<Event>): Request {
    if es == [] then []
    else
      var e := es[|es| - 1];
      Received(es[..|es| - 1]) + if e.SetStates? then e.request else []
  }

  /** A failed request has touched the path, and no request about its group has succeeded since. */
  predicate Stale(es: seq<Event>, p: Path) {
    es != [] &&
    var e, before := es[|es| - 1], es[..|es| - 1];
    !Settles(e, p) && (Disturbs(e, p) || Stale(before, p))
  }

  ghost predicate Run(ss: seq<Svc>, es: seq<Event>) {
    && |ss| == |es| + 1 && ss[0] == Svc(map[], map[], map[], {})
    && forall i | 0 <= i < |es| :: Step(ss[i], es[i], ss[i + 1])
  }

  /** The runs: nothing at first, and one operation more each time. */
  lemma RunGoesOn(ss: seq<Svc>, es: seq<Event>, e: Event, s': Svc)
    requires Run(ss, es) && Step(ss[|es|], e, s')
    ensures Run([Svc(map[], map[], map[], {})], []) && Run(ss + [s'], es + [e])
  {
    var more, events := ss + [s'], es + [e];
    forall i | 0 <= i < |events| ensures Step(more[i], events[i], more[i + 1]) {
      if i < |es| { assert Step(ss[i], es[i], ss[i + 1]); }
    }
  }

  lemma {:induction false} LastOfConcat(r: Request, q: Request, nqn: string, g: nat)
    ensures LastOf(r + q, nqn, g) == Or(LastOf(q, nqn, g), LastOf(r, nqn, g))
  {
    if q == [] {
      assert r + q == r;
    } else {
      assert (r + q)[..|r + q| - 1] == r + q[..|q| - 1];
      LastOfConcat(r, q[..|q| - 1], nqn, g);
    }
  }

  lemma {:induction false} RunIsHoused(ss: seq<Svc>, es: seq<Event>, i: nat)
    requires Run(ss, es) && i <= |es|
    ensures Housed(ss[i])
  {
    if i > 0 {
      RunIsHoused(ss, es, i - 1);
      assert Step(ss[i - 1], es[i - 1], ss[(i - 1) + 1]);
      StepKeepsHoused(ss[i - 1], es[i - 1], ss[i]);
    }
  }

  lemma ReceivedStep(es: seq<Event>, i: nat, nqn: string, g: nat)
    requires i < |es|
    ensures LastOf(Received(es[..i + 1]), nqn, g)
         == if es[i].SetStates? then Or(LastOf(es[i].request, nqn, g), LastOf(Received(es[..i]), nqn, g))
            else LastOf(Received(es[..i]), nqn, g)
  {
    assert es[..i + 1][..i] == es[..i];
    if es[i].SetStates? {
      LastOfConcat(Received(es[..i]), es[i].request, nqn, g);
    } else {
      assert Received(es[..i]) + [] == Received(es[..i]);
    }
  }

  lemma {:induction false} RunRemembersLast(ss: seq<Svc>, es: seq<Event>, i: nat, p: Path)
    requires Run(ss, es) && i <= |es| && !Stale(es[..i], p)
    ensures Remembered(ss[i].anaMap, p.nqn, p.group) == LastOf(Received(es[..i]), p.nqn, p.group)
    ensures Agrees(ss[i], p)
  {
    if i > 0 {
      var s, e, s' := ss[i - 1], es[i - 1], ss[i];
      assert Step(ss[i - 1], es[i - 1], ss[(i - 1) + 1]);
      assert es[..i][..i - 1] == es[..i - 1];
      ReceivedStep(es, i - 1, p.nqn, p.group);
      RunIsHoused(ss, es, i - 1);
      if !Settles(e, p) { RunRemembersLast(ss, es, i - 1, p); }
      StepKeepsAgreement(s, e, s', p);
    }
  }

  /** Order does not matter: after any run of state requests and of creations and deletions of subsystems and
      listeners, of which some may fail half way, an active listener is optimized for a group its subsystem can use
      exactly when the last state received for that group is optimized, whichever came first; but for the paths that
      a failed request was about and no successful one since. */
  lemma OptimizedIffLastReceived(ss: seq<Svc>, es: seq<Event>, nqn: string, l: Listener, g: nat)
    requires Run(ss, es)
    requires var s := ss[|es|]; l in Of(s.listeners, nqn) && l.active && nqn in s.maxNs && 1 <= g <= s.maxNs[nqn]
    requires !Stale(es, Path(nqn, l.address, g))
    ensures Path(nqn, l.address, g) in ss[|es|].optimized <==> LastOf(Received(es), nqn, g) == Some(true)
  {
    assert es[..|es|] == es;
    RunRemembersLast(ss, es, |es|, Path(nqn, l.address, g));
    assert HasPath(ss[|es|], Path(nqn, l.address, g));
  }

  /** Without failures nothing is stale. */
  lemma {:induction false} NeverStale(es: seq<Event>, p: Path)
    requires forall i | 0 <= i < |es| :: !es[i].FailStates? && !es[i].HalfCreateListener?
    ensures !Stale(es, p)
  {
    if es != [] { NeverStale(es[..|es| - 1], p); }
  }

  // ----- the service -----

  /** A call to SPDK that succeeded. */
  datatype Call = Wait(context: string) | SetPath(path: Path, optimized: bool)

  /** The contexts of the namespaces of each group, as the gateway finds them; none for a block device it has
      no context for. */
  type Users = map<(string, nat), seq<Option<string>>>

  /** The request sets the group to optimized. */
  ghost predicate IsAsked(r: Request, nqn: string, g: nat) {
    exists i, j :: 0 <= i < |r| && 0 <= j < |r[i].states| && r[i].nqn == nqn && r[i].states[j] == GroupState(g, true)
  }

  /** The context is that of a namespace in a group that the request sets to optimized. */
  ghost predicate IsNeeded(u: Users, r: Request, c: string) {
    exists nqn, g: nat :: IsAsked(r, nqn, g) && (nqn, g) in u && Some(c) in u[(nqn, g)]
  }

  /** Nothing else is awaited. */
  ghost predicate OnlyNeeded(calls: seq<Call>, u: Users, r: Request) {
    forall c | Wait(c) in calls :: IsNeeded(u, r, c)
  }

  lemma OnlyNeededMore(calls: seq<Call>, u: Users, r: Request, nqn: string, g: nat, c: Call)
    requires OnlyNeeded(calls, u, r)
    requires c.Wait? ==> IsAsked(r, nqn, g) && (nqn, g) in u && Some(c.context) in u[(nqn, g)]
    ensures OnlyNeeded(calls + [c], u, r)
  {
    if c.Wait? { assert IsNeeded(u, r, c.context); }
  }

  /** The group states of one subsystem of the request. */
  ghost predicate Asks(r: Request, nqn: string, states: seq<GroupState>) {
    forall j | 0 <= j < |states| && states[j].optimized :: IsAsked(r, nqn, states[j].group)
  }

  /** SPDK has answered every call with success. */
  ghost predicate AllTaken(calls: seq<Call>, answer: nat -> bool) {
    forall i: nat | i < |calls| :: answer(i)
  }

  lemma OneMoreTaken(calls: seq<Call>, c: Call, answer: nat -> bool)
    requires AllTaken(calls, answer) && answer(|calls|)
    ensures AllTaken(calls + [c], answer)
  {
  }

  /** SPDK refuses the next call, or the gateway has no context for a block device in a group that the request sets
      to optimized. */
  ghost predicate CannotGoOn(calls: seq<Call>, u: Users, r: Request, answer: nat -> bool) {
    || !answer(|calls|)
    || exists nqn, g: nat :: IsAsked(r, nqn, g) && (nqn, g) in u && None in u[(nqn, g)]
  }

  /** The paths after some calls. */
  function Played(before: set<Path>, calls: seq<Call>): set<Path> {
    if calls == [] then before else PlayedOne(Played(before, calls[..|calls| - 1]), calls[|calls| - 1])
  }

  function PlayedOne(paths: set<Path>, c: Call): set<Path> {
    match c
    case Wait(_) => paths
    case SetPath(p, optimized) => if optimized then paths + {p} else paths - {p}
  }

  lemma PlayedOneMore(before: set<Path>, calls: seq<Call>, c: Call)
    ensures Played(before, calls + [c]) == PlayedOne(Played(before, calls), c)
  {
    assert (calls + [c])[..|calls|] == calls;
  }

  /** A path is set by the last call about it. */
  lemma {:induction false} PlayedIs(before: set<Path>, calls: seq<Call>, p: Path)
    ensures (forall i | 0 <= i < |calls| :: calls[i].SetPath? ==> calls[i].path != p) ==>
              (p in Played(before, calls) <==> p in before)
    ensures forall i | 0 <= i < |calls| && calls[i].SetPath? && calls[i].path == p
                       && (forall k | i < k < |calls| :: calls[k].SetPath? ==> calls[k].path != p) ::
              p in Played(before, calls) <==> calls[i].optimized
  {
    if calls != [] {
      var init := calls[..|calls| - 1];
      PlayedIs(before, init, p);
      assert forall i | 0 <= i < |init| :: init[i] == calls[i];
    }
  }

  predicate WaitedFor(calls: seq<Call>, users: seq<Option<string>>) {
    forall i | 0 <= i < |users| :: users[i].Some? && Wait(users[i].value) in calls
  }

  /** All contexts of the group's namespaces have been awaited. */
  predicate GroupWaitedFor(calls: seq<Call>, u: Users, nqn: string, g: nat) {
    (nqn, g) in u ==> WaitedFor(calls, u[(nqn, g)])
  }

  /** Every group is set to optimized only after the contexts of all its namespaces have the latest OSD map. */
  predicate Barrier(calls: seq<Call>, u: Users) {
    forall i | 0 <= i < |calls| && calls[i].SetPath? && calls[i].optimized ::
      GroupWaitedFor(calls[..i], u, calls[i].path.nqn, calls[i].path.group)
  }

  predicate WaitsOnce(calls: seq<Call>) {
    forall i, j | 0 <= i < j < |calls| && calls[i].Wait? && calls[j].Wait? :: calls[i] != calls[j]
  }

  lemma WaitedForMore(calls: seq<Call>, more: seq<Call>, users: seq<Option<string>>)
    requires WaitedFor(calls, users)
    ensures WaitedFor(calls + more, users)
  {
    forall i | 0 <= i < |users| ensures Wait(users[i].value) in calls + more { assert Wait(users[i].value) in calls; }
  }

  lemma BarrierWait(calls: seq<Call>, u: Users, c: string)
    requires Barrier(calls, u) && WaitsOnce(calls)
    ensures Barrier(calls + [Wait(c)], u)
    ensures Wait(c) !in calls ==> WaitsOnce(calls + [Wait(c)])
  {
    BarrierCall(calls, u, Wait(c));
  }

  lemma BarrierCall(calls: seq<Call>, u: Users, c: Call)
    requires Barrier(calls, u)
    requires c.SetPath? && c.optimized ==> GroupWaitedFor(calls, u, c.path.nqn, c.path.group)
    ensures Barrier(calls + [c], u)
  {
    var after := calls + [c];
    forall i | 0 <= i < |after| && after[i].SetPath? && after[i].optimized
      ensures GroupWaitedFor(after[..i], u, after[i].path.nqn, after[i].path.group)
    {
      assert after[..i] == calls[..i];
      if i == |calls| { assert calls[..i] == calls; }
    }
  }

  lemma BarrierSet(calls: seq<Call>, u: Users, p: Path, optimized: bool)
    requires Barrier(calls, u) && WaitsOnce(calls) && (optimized ==> GroupWaitedFor(calls, u, p.nqn, p.group))
    ensures Barrier(calls + [SetPath(p, optimized)], u) && WaitsOnce(calls + [SetPath(p, optimized)])
  {
    BarrierCall(calls, u, SetPath(p, optimized));
  }

  /** The paths after the states of one subsystem have reached some of its listeners. */
  ghost predicate Pushed(before: set<Path>, after: set<Path>, nqn: string, ls: set<Listener>, states: seq<GroupState>) {
    forall p: Path :: p in after <==>
      if p.nqn == nqn && HasActive(ls, p.address) && LastIn(states, p.group).Some? then LastIn(states, p.group).value
      else p in before
  }

  /** Only paths of groups that the states are about have changed. */
  ghost predicate Touched(before: set<Path>, after: set<Path>, nqn: string, states: seq<GroupState>) {
    forall p: Path | p.nqn != nqn || LastIn(states, p.group).None? :: p in after <==> p in before
  }

  lemma PushedTouches(before: set<Path>, after: set<Path>, nqn: string, ls: set<Listener>, states: seq<GroupState>)
    requires Pushed(before, after, nqn, ls, states)
    ensures Touched(before, after, nqn, states)
  {
  }

  lemma TouchedMore(before: set<Path>, after: set<Path>, nqn: string, states: seq<GroupState>, n: nat)
    requires n <= |states| && Touched(before, after, nqn, states[..n])
    ensures Touched(before, after, nqn, states)
  {
    forall g: nat ensures LastIn(states, g).None? ==> LastIn(states[..n], g).None? { LastInPrefix(states, n, g); }
  }

  lemma {:induction false} LastInPrefix(states: seq<GroupState>, n: nat, g: nat)
    requires n <= |states|
    ensures LastIn(states, g).None? ==> LastIn(states[..n], g).None?
  {
    if n < |states| {
      LastInPrefix(states[..|states| - 1], n, g);
      assert states[..|states| - 1][..n] == states[..n];
    } else {
      assert states[..n] == states;
    }
  }

  lemma LastInStep(states: seq<GroupState>, j: nat, g: nat)
    requires j < |states|
    ensures LastIn(states[..j + 1], g) ==
              if states[j].group == g then Some(states[j].optimized) else LastIn(states[..j], g)
  {
    assert states[..j + 1][..j] == states[..j];
  }

  /** One more group state for one listener. */
  lemma PushedOneState(before: set<Path>, now: set<Path>, nqn: string, l: Listener, states: seq<GroupState>, j: nat)
    requires j < |states| && Pushed(before, now, nqn, {l}, states[..j])
    ensures var p := Path(nqn, l.address, states[j].group);
            Pushed(before, if !l.active then now else if states[j].optimized then now + {p} else now - {p},
                   nqn, {l}, states[..j + 1])
  {
    forall g: nat
      ensures LastIn(states[..j + 1], g) ==
                if states[j].group == g then Some(states[j].optimized) else LastIn(states[..j], g)
    { LastInStep(states, j, g); }
    assert forall a: Address :: HasActive({l}, a) <==> l.active && a == l.address;
  }

  /** One more listener for all group states. */
  lemma PushedOneListener(before: set<Path>, mid: set<Path>, after: set<Path>, nqn: string, ls: set<Listener>,
                          l: Listener, states: seq<GroupState>)
    requires Pushed(before, mid, nqn, ls, states) && Pushed(mid, after, nqn, {l}, states)
    ensures Pushed(before, after, nqn, ls + {l}, states)
  {
    forall a: Address ensures HasActive(ls + {l}, a) <==> HasActive(ls, a) || HasActive({l}, a) {
      if HasActive(ls, a) {
        var x :| x in ls && x.active && x.address == a;
        assert x in ls + {l};
      }
    }
  }

  /** The paths after a request. */
  ghost predicate PushedAll(maxNs: map<string, nat>, ls: Listeners, before: set<Path>, after: set<Path>, r: Request) {
    forall p: Path :: p in after <==>
      if p.nqn in maxNs && HasActive(Of(ls, p.nqn), p.address) && LastOf(r, p.nqn, p.group).Some?
      then LastOf(r, p.nqn, p.group).value else p in before
  }

  lemma LastOfStep(r: Request, i: nat, nqn: string, g: nat)
    requires i < |r|
    ensures LastOf(r[..i + 1], nqn, g) ==
              if r[i].nqn == nqn then Or(LastIn(r[i].states, g), LastOf(r[..i], nqn, g)) else LastOf(r[..i], nqn, g)
  {
    assert r[..i + 1][..i] == r[..i];
  }

  lemma PushedOneSubsystem(maxNs: map<string, nat>, ls: Listeners, before: set<Path>, mid: set<Path>, after: set<Path>,
                           r: Request, i: nat)
    requires i < |r| && PushedAll(maxNs, ls, before, mid, r[..i])
    requires if r[i].nqn in maxNs then Pushed(mid, after, r[i].nqn, Of(ls, r[i].nqn), r[i].states) else after == mid
    ensures PushedAll(maxNs, ls, before, after, r[..i + 1])
  {
    forall p: Path ensures p in after <==>
      if p.nqn in maxNs && HasActive(Of(ls, p.nqn), p.address) && LastOf(r[..i + 1], p.nqn, p.group).Some?
      then LastOf(r[..i + 1], p.nqn, p.group).value else p in before
    { LastOfStep(r, i, p.nqn, p.group); }
  }

  lemma LastOfPrefix(r: Request, i: nat, nqn: string, g: nat)
    requires i < |r| && LastOf(r, nqn, g).None?
    ensures LastOf(r[..i], nqn, g).None? && (r[i].nqn == nqn ==> LastIn(r[i].states, g).None?)
  {
    assert r == r[..i + 1] + r[i + 1..];
    LastOfConcat(r[..i + 1], r[i + 1..], nqn, g);
    LastOfStep(r, i, nqn, g);
  }

  lemma StoppedHalfWay(r: Request, i: nat, s: Svc, mid: set<Path>, s': Svc)
    requires i < |r| && s'.maxNs == s.maxNs && s'.listeners == s.listeners
    requires forall n, g: nat :: Remembered(s'.anaMap, n, g) == Or(LastOf(r[..i + 1], n, g), Remembered(s.anaMap, n, g))
    requires PushedAll(s.maxNs, s.listeners, s.optimized, mid, r[..i])
               && Touched(mid, s'.optimized, r[i].nqn, r[i].states)
    ensures OnlyAbout(r, s, s')
  {
    forall nqn, g: nat | LastOf(r, nqn, g).None? ensures Remembered(s'.anaMap, nqn, g) == Remembered(s.anaMap, nqn, g) {
      LastOfPrefix(r, i, nqn, g);
      LastOfStep(r, i, nqn, g);
    }
    forall p: Path | LastOf(r, p.nqn, p.group).None? ensures p in s'.optimized <==> p in s.optimized {
      LastOfPrefix(r, i, p.nqn, p.group);
    }
  }

  /** The subsystem has no listener at the address, active or not. */
  predicate AddressFree(s: Svc, nqn: string, a: Address) {
    forall secure, active :: Listener(a, secure, active) !in Of(s.listeners, nqn)
  }

  /** A group that the subsystem can use and whose remembered state is optimized. */
  predicate ToOptimize(m: AnaMap, maxNs: map<string, nat>, nqn: string, g: nat) {
    nqn in maxNs && 1 <= g <= maxNs[nqn] && Remembered(m, nqn, g) == Some(true)
  }

  datatype Outcome = Done | Refused | HalfDone

  class AnaService {
    var anaMap: AnaMap
    var subsysMaxNs: map<string, nat>
    var subsystemListeners: Listeners
    /** The paths that SPDK has as optimized. */
    var optimized: set<Path>

    constructor ()
      ensures State() == Svc(map[], map[], map[], {})
    {
      anaMap, subsysMaxNs, subsystemListeners, optimized := map[], map[], map[], {};
    }

    ghost function State(): Svc
      reads this
    {
      Svc(anaMap, subsysMaxNs, subsystemListeners, optimized)
    }

    /** Waits until the contexts of all namespaces of a group have the latest OSD map, each once per request.
        `answer` is SPDK's answer to the call of that number. */
    method AwaitContexts(u: Users, nqn: string, g: nat, calls: seq<Call>, awaited: set<string>, answer: nat -> bool,
                         ghost start: set<Path>, ghost r: Request)
      returns (ok: bool, calls': seq<Call>, awaited': set<string>)
      requires Barrier(calls, u) && WaitsOnce(calls) && forall c :: c in awaited <==> Wait(c) in calls
      requires OnlyNeeded(calls, u, r)
      requires AllTaken(calls, answer) && IsAsked(r, nqn, g)
      ensures Barrier(calls', u) && WaitsOnce(calls') && forall c :: c in awaited' <==> Wait(c) in calls'
      ensures OnlyNeeded(calls', u, r)
      ensures AllTaken(calls', answer) && (!ok ==> CannotGoOn(calls', u, r, answer))
      ensures Played(start, calls') == Played(start, calls)
      ensures ok ==> GroupWaitedFor(calls', u, nqn, g)
    {
      calls', awaited' := calls, awaited;
      var users := if (nqn, g) in u then u[(nqn, g)] else [];
      for i := 0 to |users|
        invariant Barrier(calls', u) && WaitsOnce(calls') && forall c :: c in awaited' <==> Wait(c) in calls'
        invariant OnlyNeeded(calls', u, r)
        invariant WaitedFor(calls', users[..i])
        invariant Played(start, calls') == Played(start, calls) && AllTaken(calls', answer)
      {
        if users[i].None? {
          assert None in u[(nqn, g)];
          return false, calls', awaited';
        }
        var c := users[i].value;
        WaitedForMore(calls', [Wait(c)], users[..i]);
        assert users[..i + 1] == users[..i] + [users[i]];
        if c in awaited' { continue; }
        if !answer(|calls'|) { return false, calls', awaited'; }
        assert Some(c) in u[(nqn, g)];
        BarrierWait(calls', u, c);
        OnlyNeededMore(calls', u, r, nqn, g, Wait(c));
        OneMoreTaken(calls', Wait(c), answer);
        PlayedOneMore(start, calls', Wait(c));
        calls', awaited' := calls' + [Wait(c)], awaited' + {c};
      }
      assert users[..|users|] == users;
      ok := true;
    }

    /** `for gs in nas.states: self.ana_map[nqn][gs.grp_id] = gs.state` */
    method Remember(nqn: string, states: seq<GroupState>)
      modifies `anaMap
      ensures forall n, g: nat :: Remembered(anaMap, n, g) ==
                if n == nqn then Or(LastIn(states, g), old(Remembered(anaMap, n, g))) else old(Remembered(anaMap, n, g))
    {
      for j := 0 to |states|
        invariant forall n, g: nat :: Remembered(anaMap, n, g) ==
                    if n == nqn then Or(LastIn(states[..j], g), old(Remembered(anaMap, n, g)))
                    else old(Remembered(anaMap, n, g))
      {
        forall g: nat
          ensures LastIn(states[..j + 1], g) ==
                    if states[j].group == g then Some(states[j].optimized) else LastIn(states[..j], g)
        { LastInStep(states, j, g); }
        var groups := if nqn in anaMap then anaMap[nqn] else map[];
        anaMap := anaMap[nqn := groups[states[j].group := states[j].optimized]];
      }
      assert states[..|states|] == states;
    }

    /** Sends the states of one subsystem to one listener. */
    method SetListener(u: Users, nqn: string, states: seq<GroupState>, l: Listener,
                       calls: seq<Call>, awaited: set<string>, answer: nat -> bool, ghost start: set<Path>,
                       ghost r: Request)
      returns (ok: bool, calls': seq<Call>, awaited': set<string>)
      requires Barrier(calls, u) && WaitsOnce(calls) && forall c :: c in awaited <==> Wait(c) in calls
      requires OnlyNeeded(calls, u, r)
      requires optimized == Played(start, calls) && AllTaken(calls, answer) && Asks(r, nqn, states)
      modifies `optimized
      ensures Barrier(calls', u) && WaitsOnce(calls') && forall c :: c in awaited' <==> Wait(c) in calls'
      ensures OnlyNeeded(calls', u, r)
      ensures optimized == Played(start, calls') && AllTaken(calls', answer)
                && (!ok ==> CannotGoOn(calls', u, r, answer))
      ensures Touched(old(optimized), optimized, nqn, states)
      ensures ok ==> Pushed(old(optimized), optimized, nqn, {l}, states)
    {
      calls', awaited' := calls, awaited;
      ghost var before := optimized;
      for j := 0 to |states|
        invariant Barrier(calls', u) && WaitsOnce(calls') && forall c :: c in awaited' <==> Wait(c) in calls'
        invariant OnlyNeeded(calls', u, r)
        invariant Pushed(before, optimized, nqn, {l}, states[..j]) && optimized == Played(start, calls')
        invariant AllTaken(calls', answer)
      {
        var gs := states[j];
        PushedTouches(before, optimized, nqn, {l}, states[..j]);
        TouchedMore(before, optimized, nqn, states, j);
        if gs.optimized {
          var waited;
          waited, calls', awaited' := AwaitContexts(u, nqn, gs.group, calls', awaited', answer, start, r);
          if !waited { return false, calls', awaited'; }
        }
        PushedOneState(before, optimized, nqn, l, states, j);
        if l.active {
          var p := Path(nqn, l.address, gs.group);
          if !answer(|calls'|) { return false, calls', awaited'; }
          BarrierSet(calls', u, p, gs.optimized);
          OnlyNeededMore(calls', u, r, nqn, gs.group, SetPath(p, gs.optimized));
          OneMoreTaken(calls', SetPath(p, gs.optimized), answer);
          PlayedOneMore(start, calls', SetPath(p, gs.optimized));
          calls' := calls' + [SetPath(p, gs.optimized)];
          optimized := if gs.optimized then optimized + {p} else optimized - {p};
        }
      }
      assert states[..|states|] == states;
      PushedTouches(before, optimized, nqn, {l}, states);
      ok := true;
    }

    /** Sends the states of one subsystem to all its listeners, in any order. */
    method SetListeners(u: Users, nqn: string, states: seq<GroupState>, calls: seq<Call>, awaited: set<string>,
                        answer: nat -> bool, ghost start: set<Path>, ghost r: Request)
      returns (ok: bool, calls': seq<Call>, awaited': set<string>)
      requires Barrier(calls, u) && WaitsOnce(calls) && forall c :: c in awaited <==> Wait(c) in calls
      requires OnlyNeeded(calls, u, r)
      requires optimized == Played(start, calls) && AllTaken(calls, answer) && Asks(r, nqn, states)
      modifies `optimized
      ensures Barrier(calls', u) && WaitsOnce(calls') && forall c :: c in awaited' <==> Wait(c) in calls'
      ensures OnlyNeeded(calls', u, r)
      ensures optimized == Played(start, calls') && AllTaken(calls', answer)
                && (!ok ==> CannotGoOn(calls', u, r, answer))
      ensures Touched(old(optimized), optimized, nqn, states)
      ensures ok ==> Pushed(old(optimized), optimized, nqn, Of(subsystemListeners, nqn), states)
    {
      calls', awaited' := calls, awaited;
      ghost var before := optimized;
      var listeners := Of(subsystemListeners, nqn);
      var todo := listeners;
      while todo != {}
        invariant todo <= listeners
        invariant Barrier(calls', u) && WaitsOnce(calls') && forall c :: c in awaited' <==> Wait(c) in calls'
        invariant OnlyNeeded(calls', u, r)
        invariant Pushed(before, optimized, nqn, listeners - todo, states) && optimized == Played(start, calls')
        invariant AllTaken(calls', answer)
      {
        var l :| l in todo;
        ghost var done, mid := listeners - todo, optimized;
        todo := todo - {l};
        PushedTouches(before, mid, nqn, done, states);
        ok, calls', awaited' := SetListener(u, nqn, states, l, calls', awaited', answer, start, r);
        if !ok {
          assert Touched(before, optimized, nqn, states);
          return;
        }
        PushedOneListener(before, mid, optimized, nqn, done, l, states);
        assert listeners - todo == done + {l};
      }
      assert listeners - todo == listeners;
      PushedTouches(before, optimized, nqn, listeners, states);
      ok := true;
    }

    /** Takes the states the monitor sends. `calls` are the SPDK calls that succeeded. */
    method SetAnaState(r: Request, u: Users, answer: nat -> bool) returns (ok: bool, calls: seq<Call>)
      modifies `anaMap, `optimized
      ensures ok ==> Step(old(State()), SetStates(r), State())
      ensures !ok ==> Step(old(State()), FailStates(r), State())
      ensures AllTaken(calls, answer) && (!ok ==> CannotGoOn(calls, u, r, answer))
      ensures forall i | 0 <= i < |calls| && calls[i].SetPath? && calls[i].optimized ::
                var p := calls[i].path;
                (p.nqn, p.group) in u ==>
                  forall x | x in u[(p.nqn, p.group)] :: x.Some? && Wait(x.value) in calls[..i]
      ensures forall i, j | 0 <= i < j < |calls| && calls[i].Wait? :: calls[i] != calls[j]
      ensures OnlyNeeded(calls, u, r) && optimized == Played(old(optimized), calls)
    {
      ghost var s := State();
      var awaited: set<string> := {};
      calls := [];
      for i := 0 to |r|
        invariant Barrier(calls, u) && WaitsOnce(calls) && forall c :: c in awaited <==> Wait(c) in calls
        invariant OnlyNeeded(calls, u, r)
        invariant forall n, g: nat :: Remembered(anaMap, n, g) == Or(LastOf(r[..i], n, g), Remembered(s.anaMap, n, g))
        invariant PushedAll(s.maxNs, s.listeners, s.optimized, optimized, r[..i])
                    && optimized == Played(s.optimized, calls)
        invariant AllTaken(calls, answer)
      {
        var nas := r[i];
        forall n, g: nat ensures LastOf(r[..i + 1], n, g)
            == if r[i].nqn == n then Or(LastIn(r[i].states, g), LastOf(r[..i], n, g)) else LastOf(r[..i], n, g)
        { LastOfStep(r, i, n, g); }
        Remember(nas.nqn, nas.states);
        ghost var mid := optimized;
        if nas.nqn in subsysMaxNs {
          assert Asks(r, nas.nqn, nas.states) by {
            forall j | 0 <= j < |nas.states| && nas.states[j].optimized
              ensures IsAsked(r, nas.nqn, nas.states[j].group)
            {
              assert r[i].states[j] == GroupState(nas.states[j].group, true);
            }
          }
          ok, calls, awaited := SetListeners(u, nas.nqn, nas.states, calls, awaited, answer, s.optimized, r);
          if !ok {
            StoppedHalfWay(r, i, s, mid, State());
            return;
          }
        }
        PushedOneSubsystem(s.maxNs, s.listeners, s.optimized, mid, optimized, r, i);
      }
      assert r[..|r|] == r;
      ok := true;
    }

    method CreateSubsystem(nqn: string, maxNs: nat, admitted: bool, spdk: bool) returns (outcome: Outcome)
      modifies `subsysMaxNs
      ensures outcome.Done? <==> admitted && spdk && nqn !in old(subsysMaxNs)
      ensures if outcome.Done? then Step(old(State()), Event.CreateSubsystem(nqn, maxNs), State())
              else State() == old(State())
    {
      if !admitted || !spdk || nqn in subsysMaxNs { return Refused; }
      subsysMaxNs := subsysMaxNs[nqn := maxNs];
      outcome := Done;
    }

    /** SPDK deletes the listeners with the subsystem. The remembered states stay. */
    method DeleteSubsystem(nqn: string, spdk: bool) returns (outcome: Outcome)
      modifies this
      ensures outcome.Done? <==> spdk && nqn in old(subsysMaxNs)
      ensures if outcome.Done? then Step(old(State()), Event.DeleteSubsystem(nqn), State()) else State() == old(State())
    {
      if !spdk || nqn !in subsysMaxNs { return Refused; }
      optimized := set p | p in optimized && p.nqn != nqn;
      subsysMaxNs := subsysMaxNs - {nqn};
      subsystemListeners := subsystemListeners - {nqn};
      outcome := Done;
    }

    /** Creates a listener; one of another host is only noted. SPDK answers the calls in order. */
    method CreateListener(nqn: string, l: Listener, admitted: bool, answer: nat -> bool) returns (outcome: Outcome)
      modifies `subsystemListeners, `optimized
      ensures outcome.Done? ==> Step(old(State()), Event.CreateListener(nqn, l), State())
      ensures outcome.Refused? ==> State() == old(State())
      ensures outcome.Refused? <==>
                || !admitted
                || (l.active && !(nqn in old(subsysMaxNs) && AddressFree(old(State()), nqn, l.address) && answer(0)))
      ensures outcome.Done? && l.active ==>
                answer(1) && forall g: nat | ToOptimize(anaMap, subsysMaxNs, nqn, g) :: answer(g + 1)
      ensures outcome.HalfDone? ==>
                !answer(1) || exists g: nat :: ToOptimize(anaMap, subsysMaxNs, nqn, g) && !answer(g + 1)
      ensures outcome.HalfDone? ==>
                Step(old(State()), HalfCreateListener(nqn, l), State())
    {
      if !admitted { return Refused; }
      if l.active {
        if exists secure, active :: Listener(l.address, secure, active) in Of(subsystemListeners, nqn) {
          return Refused;
        }
        if nqn !in subsysMaxNs || !answer(0) { return Refused; }
      }
      subsystemListeners := subsystemListeners[nqn := Of(subsystemListeners, nqn) + {l}];
      if l.active {
        if !answer(1) { return HalfDone; }
        optimized := set p | p in optimized && !(p.nqn == nqn && p.address == l.address);
        var max := subsysMaxNs[nqn];
        for x := 0 to max
          invariant subsystemListeners == old(subsystemListeners)[nqn := Of(old(subsystemListeners), nqn) + {l}]
          invariant forall p: Path :: p in optimized <==>
                      if p.nqn == nqn && p.address == l.address
                      then 1 <= p.group <= x && Remembered(anaMap, nqn, p.group) == Some(true) else p in old(optimized)
          invariant forall g: nat | g <= x && ToOptimize(anaMap, subsysMaxNs, nqn, g) :: answer(g + 1)
        {
          var g := x + 1;
          if nqn in anaMap && g in anaMap[nqn] && anaMap[nqn][g] {
            assert ToOptimize(anaMap, subsysMaxNs, nqn, g);
            if !answer(g + 1) { return HalfDone; }
            optimized := optimized + {Path(nqn, l.address, g)};
          }
        }
      }
      outcome := Done;
    }

    /** Deletes the listeners at an address. SPDK is asked only when the first of them found is active. */
    method DeleteListener(nqn: string, a: Address, admitted: bool, spdk: bool) returns (outcome: Outcome)
      modifies `subsystemListeners, `optimized
      ensures if outcome.Done? then Step(old(State()), Event.DeleteListener(nqn, a), State())
              else State() == old(State())
      ensures outcome.Done? ==> admitted && exists l :: l in Of(old(subsystemListeners), nqn) && l.address == a
      ensures var ls := Of(old(subsystemListeners), nqn);
              var idle := Listener(a, false, false) in ls
                          || (Listener(a, false, true) !in ls && Listener(a, true, false) in ls);
              && (outcome.Done? <==> admitted && (exists l :: l in ls && l.address == a) && (idle || spdk))
              && (outcome.Done? ==>
                    optimized == if idle then old(optimized)
                                 else set p | p in old(optimized) && !(p.nqn == nqn && p.address == a))
      ensures outcome.Done? && (forall l | l in Of(old(subsystemListeners), nqn) && l.address == a :: l.active) ==>
                spdk && forall p | p in optimized :: !(p.nqn == nqn && p.address == a)
      ensures admitted && spdk && (exists l :: l in Of(old(subsystemListeners), nqn) && l.address == a) ==>
                outcome.Done?
    {
      if !admitted { return Refused; }
      var ls := Of(subsystemListeners, nqn);
      var plain, secure := Listener(a, false, true), Listener(a, true, true);
      var plainIdle, secureIdle := Listener(a, false, false), Listener(a, true, false);
      assert forall l | l in ls && l.address == a :: l in {plainIdle, plain, secureIdle, secure};
      if plainIdle !in ls && plain !in ls && secureIdle !in ls && secure !in ls { return Refused; }
      var active := plainIdle !in ls && (plain in ls || secureIdle !in ls);
      if active {
        if !spdk { return Refused; }
        optimized := set p | p in optimized && !(p.nqn == nqn && p.address == a);
      }
      subsystemListeners := subsystemListeners[nqn := ls - {plainIdle, plain, secureIdle, secure}];
      assert Of(subsystemListeners, nqn) == set l | l in ls && l.address != a;
      outcome := Done;
    }
  }
}
