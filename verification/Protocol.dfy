/** The replication protocol of a gateway group as interleaved steps. Every gateway has a thread that
    serves requests (it takes the exclusive OMAP lock, compares versions, and writes the OMAP and then its
    own copy, one key at a time) and a thread that runs `update` (it reads the OMAP page by page under the
    shared lock, replays the difference, and then replaces its own copy and its version). The state records
    the log of committed writes, the operations whose OMAP half is complete, and, for every version at
    which the exclusive lock was free, how many operations that version contains. */
module Protocol {
  import opened Text
  import opened StateKeys
  import opened StateOps

  type Gw = nat
  type Store = map<Key, string>

  // ----- history -----

  datatype Write = Put(k: Key, v: string) | Del(k: Key)

  function ApplyWrite(w: Write, m: Store): Store {
    match w
    case Put(k, v) => m[k := v]
    case Del(k) => m - {k}
  }

  function Fold(log: seq<Write>): Store {
    if log == [] then map[] else ApplyWrite(log[|log| - 1], Fold(log[..|log| - 1]))
  }

  /** The contents of the OMAP at a version: version 1 is empty and every write makes the next version. */
  function Hist(log: seq<Write>, version: nat): Store
    requires 1 <= version <= |log| + 1
  {
    Fold(log[..version - 1])
  }

  /** The contents after whole operations, one after the other. */
  function Serial(ops: seq<Op>): Store {
    if ops == [] then map[] else OmapHalf(ops[|ops| - 1], Serial(ops[..|ops| - 1]))
  }

  // ----- states -----

  /** The request thread: `Locked` holds the exclusive lock, `Verified` has also found its version to be
      current, the others are inside one handler call. */
  datatype Rpc =
    | Idle | Locked | Verified
    | OmapHead(op: Op) | OmapTail(op: Op, todo: set<Key>)
    | LocalHead(op: Op) | LocalTail(op: Op, todo: set<Key>)

  /** The update thread: `Adopting` has replaced the local copy but not yet the version. */
  datatype Upd =
    | Resting
    | Reading(seen: Option<nat>, got: Store)
    | Fetched(ver: nat, snap: Store)
    | Replaying(ver: nat, snap: Store, base: Store)
    | Adopting(ver: nat, snap: Store)

  datatype Gateway = Gateway(version: nat, local: Store, rpc: Rpc, upd: Upd)

  datatype State = State(log: seq<Write>, omap: Store, writer: Option<Gw>, readers: set<Gw>,
                         gws: map<Gw, Gateway>, done: seq<Op>, bounds: map<nat, nat>)

  function OmapVersion(s: State): nat {
    |s.log| + 1
  }

  predicate Init(s: State) {
    && s.log == [] && s.omap == map[] && s.writer == None && s.readers == {}
    && s.done == [] && s.bounds == map[1 := 0]
    && forall g | g in s.gws :: s.gws[g] == Gateway(1, map[], Idle, Resting)
  }

  // ----- steps -----

  datatype Event =
    | Lock(g: Gw) | Check(g: Gw) | Begin(g: Gw, op: Op)
    | WriteHead(g: Gw) | WriteTail(g: Gw, k: Key) | EndOmap(g: Gw) | CasFails(g: Gw)
    | StartLocal(g: Gw) | LocalStep(g: Gw, k: Key) | EndLocal(g: Gw) | Unlock(g: Gw)
    | StartRead(g: Gw) | ReadPage(g: Gw, keys: set<Key>, withVersion: bool) | EndRead(g: Gw)
    | Decide(g: Gw) | Reset(g: Gw) | SetVersion(g: Gw) | AbortUpdate(g: Gw)

  /** The OMAP write op compares the stored version with the writer's. */
  predicate CasHolds(s: State, gw: Gateway) {
    gw.version == OmapVersion(s)
  }

  predicate Enabled(s: State, e: Event) {
    e.g in s.gws &&
    var gw := s.gws[e.g];
    match e
    case Lock(_) => gw.rpc.Idle? && s.writer == None && s.readers == {}
    case Check(_) => gw.rpc.Locked?
    case Begin(_, op) => gw.rpc.Verified? && Offered(op)
    case WriteHead(_) => gw.rpc.OmapHead? && CasHolds(s, gw)
    case WriteTail(_, k) => gw.rpc.OmapTail? && k in gw.rpc.todo && CasHolds(s, gw)
    case EndOmap(_) => gw.rpc.OmapTail? && gw.rpc.todo == {}
    case CasFails(_) => (gw.rpc.OmapHead? || (gw.rpc.OmapTail? && gw.rpc.todo != {})) && !CasHolds(s, gw)
    case StartLocal(_) => gw.rpc.LocalHead?
    case LocalStep(_, k) => gw.rpc.LocalTail? && k in gw.rpc.todo
    case EndLocal(_) => gw.rpc.LocalTail? && gw.rpc.todo == {}
    case Unlock(_) => gw.rpc.Verified?
    case StartRead(_) => gw.upd.Resting? && s.writer == None
    case ReadPage(_, keys, _) => gw.upd.Reading? && keys <= s.omap.Keys - gw.upd.got.Keys
    case EndRead(_) => gw.upd.Reading? && gw.upd.seen.Some? && s.omap.Keys <= gw.upd.got.Keys
    case Decide(_) => gw.upd.Fetched?
    case Reset(_) => gw.upd.Replaying?
    case SetVersion(_) => gw.upd.Adopting?
    case AbortUpdate(_) => gw.upd.Reading? || gw.upd.Fetched? || gw.upd.Replaying?
  }

  function With(s: State, g: Gw, gw: Gateway): State {
    s.(gws := s.gws[g := gw])
  }

  /** Leaving the exclusive section. */
  function Released(s: State, g: Gw, gw: Gateway): State {
    With(s, g, gw.(rpc := Idle)).(writer := None)
  }

  function HeadWrite(op: Op): Write {
    if op.Set? then Put(op.k, op.v) else Del(HeadKey(op))
  }

  function Step(s: State, e: Event): State
    requires Enabled(s, e)
  {
    var g, gw := e.g, s.gws[e.g];
    match e
    case Lock(_) => With(s, g, gw.(rpc := Locked)).(writer := Some(g))
    case Check(_) =>
      if OmapVersion(s) > gw.version then Released(s, g, gw) else With(s, g, gw.(rpc := Verified))
    case Begin(_, op) => With(s, g, gw.(rpc := OmapHead(op)))
    case WriteHead(_) =>
      var op := gw.rpc.op;
      if op.DropIfPresent? && op.k !in s.omap then With(s, g, gw.(rpc := OmapTail(op, CascadeKeys(op, s.omap))))
      else
        var m := HeadApplied(op, s.omap);
        With(s, g, gw.(version := gw.version + 1, rpc := OmapTail(op, CascadeKeys(op, m))))
          .(log := s.log + [HeadWrite(op)], omap := m)
    case WriteTail(_, k) =>
      With(s, g, gw.(version := gw.version + 1, rpc := OmapTail(gw.rpc.op, gw.rpc.todo - {k})))
        .(log := s.log + [Del(k)], omap := s.omap - {k})
    case EndOmap(_) => With(s, g, gw.(rpc := LocalHead(gw.rpc.op))).(done := s.done + [gw.rpc.op])
    case CasFails(_) => Released(s, g, gw)
    case StartLocal(_) =>
      var op := gw.rpc.op;
      if LocalRaises(op, gw.local) then With(s, g, gw.(rpc := Verified))
      else
        var m := HeadApplied(op, gw.local);
        With(s, g, gw.(local := m, rpc := LocalTail(op, CascadeKeys(op, m))))
    case LocalStep(_, k) =>
      With(s, g, gw.(local := gw.local - {k}, rpc := LocalTail(gw.rpc.op, gw.rpc.todo - {k})))
    case EndLocal(_) => With(s, g, gw.(rpc := Verified))
    case Unlock(_) => Released(s, g, gw).(bounds := s.bounds[OmapVersion(s) := |s.done|])
    case StartRead(_) => With(s, g, gw.(upd := Reading(None, map[]))).(readers := s.readers + {g})
    case ReadPage(_, keys, withVersion) =>
      var seen := if withVersion then Some(OmapVersion(s)) else gw.upd.seen;
      With(s, g, gw.(upd := Reading(seen, gw.upd.got + map k | k in keys && k in s.omap :: s.omap[k])))
    case EndRead(_) =>
      With(s, g, gw.(upd := Fetched(gw.upd.seen.value, gw.upd.got))).(readers := s.readers - {g})
    case Decide(_) =>
      if gw.version < gw.upd.ver then With(s, g, gw.(upd := Replaying(gw.upd.ver, gw.upd.snap, gw.local)))
      else With(s, g, gw.(upd := Resting))
    case Reset(_) => With(s, g, gw.(local := gw.upd.snap, upd := Adopting(gw.upd.ver, gw.upd.snap)))
    case SetVersion(_) => With(s, g, gw.(version := gw.upd.ver, upd := Resting))
    case AbortUpdate(_) => With(s, g, gw.(upd := Resting)).(readers := s.readers - {g})
  }

  // ----- what every run keeps, whatever the copies hold -----

  predicate InSection(rpc: Rpc) {
    !rpc.Idle? && !rpc.Locked?
  }

  /** Every boundary version holds exactly the operations completed by then. */
  ghost predicate BoundsOk(log: seq<Write>, done: seq<Op>, bounds: map<nat, nat>) {
    forall b | b in bounds ::
      1 <= b <= |log| + 1 && bounds[b] <= |done| && Hist(log, b) == Serial(done[..bounds[b]])
  }

  ghost predicate Snapshot(log: seq<Write>, bounds: map<nat, nat>, ver: nat, snap: Store) {
    ver in bounds && 1 <= ver <= |log| + 1 && snap == Hist(log, ver)
  }

  predicate VersionOk(log: seq<Write>, bounds: map<nat, nat>, gw: Gateway) {
    1 <= gw.version <= |log| + 1 && (!InSection(gw.rpc) ==> gw.version in bounds)
  }

  /** What holds of a gateway whatever the others do. */
  ghost predicate GatewayOk(log: seq<Write>, bounds: map<nat, nat>, gw: Gateway) {
    match gw.upd
    case Resting => VersionOk(log, bounds, gw)
    case Reading(_, _) => VersionOk(log, bounds, gw)
    case Fetched(ver, snap) => VersionOk(log, bounds, gw) && Snapshot(log, bounds, ver, snap)
    case Replaying(ver, snap, base) =>
      && VersionOk(log, bounds, gw) && Snapshot(log, bounds, ver, snap)
      && gw.version < ver && base == gw.local && !InSection(gw.rpc)
    case Adopting(ver, snap) =>
      && VersionOk(log, bounds, gw) && Snapshot(log, bounds, ver, snap)
      && gw.version < ver && gw.local == snap && !InSection(gw.rpc)
  }

  /** What holds of the gateway inside the exclusive section. */
  ghost predicate WriterOk(omap: Store, version: nat, done: seq<Op>, gw: Gateway) {
    match gw.rpc
    case Idle => true
    case Locked => true
    case Verified => gw.version == version && omap == Serial(done)
    case OmapHead(op) => gw.version == version && omap == Serial(done)
    case OmapTail(op, todo) => gw.version == version && HalfWritten(omap, op, Serial(done), todo)
    case LocalHead(op) => gw.version == version && done != [] && done[|done| - 1] == op && omap == Serial(done)
    case LocalTail(op, todo) => gw.version == version && omap == Serial(done)
  }

  /** The head write of an operation on `m` is made, and the cascading keys but for `todo` are erased. */
  ghost predicate HalfWritten(omap: Store, op: Op, m: Store, todo: set<Key>) {
    var all := CascadeKeys(op, HeadApplied(op, m));
    todo <= all && omap == HeadApplied(op, m) - (all - todo)
  }

  ghost predicate LocksOk(s: State) {
    && (s.writer.Some? ==> s.readers == {} && s.writer.value in s.gws)
    && (forall g | g in s.gws :: s.gws[g].rpc.Idle? <==> s.writer != Some(g))
    && (forall g :: g in s.readers <==> g in s.gws && s.gws[g].upd.Reading?)
  }

  /** What holds of a gateway that is reading: its pages are of the current contents. */
  ghost predicate ReaderOk(omap: Store, version: nat, upd: Upd) {
    match upd
    case Reading(seen, got) =>
      (seen.Some? ==> seen.value == version) && forall k | k in got :: k in omap && omap[k] == got[k]
    case _ => true
  }

  /** Outside the section the current version is a boundary that holds every completed operation. */
  ghost predicate FreeOk(s: State) {
    (s.writer == None || (s.writer.value in s.gws && s.gws[s.writer.value].rpc.Locked?)) ==>
      OmapVersion(s) in s.bounds && s.bounds[OmapVersion(s)] == |s.done|
  }

  /** The part of the invariant that does not depend on what the gateways' copies hold. */
  ghost predicate Base(s: State) {
    && s.omap == Fold(s.log)
    && LocksOk(s)
    && BoundsOk(s.log, s.done, s.bounds)
    && FreeOk(s)
    && (forall g | g in s.gws ::
          && GatewayOk(s.log, s.bounds, s.gws[g])
          && WriterOk(s.omap, OmapVersion(s), s.done, s.gws[g])
          && ReaderOk(s.omap, OmapVersion(s), s.gws[g].upd))
  }

  lemma HistAppend(log: seq<Write>, w: Write, v: nat)
    requires 1 <= v <= |log| + 1
    ensures Hist(log + [w], v) == Hist(log, v)
    ensures Hist(log + [w], |log| + 2) == ApplyWrite(w, Fold(log)) == Fold(log + [w])
    ensures Hist(log, |log| + 1) == Fold(log)
  {
    assert (log + [w])[..v - 1] == log[..v - 1];
    assert (log + [w])[..|log| + 1] == log + [w];
    assert (log + [w])[..|log|] == log;
    assert log[..|log|] == log;
  }

  lemma BoundsAppend(log: seq<Write>, w: Write, done: seq<Op>, bounds: map<nat, nat>)
    requires BoundsOk(log, done, bounds)
    ensures BoundsOk(log + [w], done, bounds)
  {
    forall b | b in bounds ensures Hist(log + [w], b) == Hist(log, b) { HistAppend(log, w, b); }
  }

  lemma BoundsLater(log: seq<Write>, done: seq<Op>, op: Op, bounds: map<nat, nat>)
    requires BoundsOk(log, done, bounds)
    ensures BoundsOk(log, done + [op], bounds)
  {
    forall b | b in bounds ensures (done + [op])[..bounds[b]] == done[..bounds[b]] {}
  }

  lemma GatewayAppend(log: seq<Write>, w: Write, bounds: map<nat, nat>, gw: Gateway)
    requires GatewayOk(log, bounds, gw)
    ensures GatewayOk(log + [w], bounds, gw)
  {
    if gw.upd.Fetched? || gw.upd.Replaying? || gw.upd.Adopting? { HistAppend(log, w, gw.upd.ver); }
  }

  lemma SerialAppend(done: seq<Op>, op: Op)
    ensures Serial(done + [op]) == OmapHalf(op, Serial(done))
    ensures (done + [op])[..|done|] == done
  {
    assert (done + [op])[..|done|] == done;
  }

  /** In the section there are no readers and no other writer. */
  lemma AloneInSection(s: State, g: Gw, h: Gw)
    requires LocksOk(s) && g in s.gws && h in s.gws && !s.gws[g].rpc.Idle?
    ensures s.writer == Some(g) && !s.gws[h].upd.Reading? && (h != g ==> s.gws[h].rpc.Idle?)
  {
  }

  lemma WriterIsBusy(s: State, g: Gw)
    requires LocksOk(s) && g in s.gws
    ensures s.writer == Some(g) <==> !s.gws[g].rpc.Idle?
    ensures s.writer.Some? ==> s.readers == {}
  {
  }

  /** With the section free, the current contents are those of every completed operation. */
  lemma FreeContents(s: State)
    requires Base(s) && (s.writer == None || s.gws[s.writer.value].rpc.Locked?)
    ensures OmapVersion(s) in s.bounds && s.omap == Hist(s.log, OmapVersion(s)) == Serial(s.done)
  {
    HistAppend(s.log, Del(Version), 1);
    assert s.done[..|s.done|] == s.done;
  }

  // ----- preservation -----

  /** A committed write by the gateway in the section. */
  lemma WriteKeepsBase(s: State, s': State, g: Gw, w: Write, gw': Gateway)
    requires Base(s) && g in s.gws && InSection(s.gws[g].rpc) && InSection(gw'.rpc)
    requires s' == With(s, g, gw').(log := s.log + [w], omap := s'.omap) && s'.omap == ApplyWrite(w, s.omap)
    requires gw'.version == OmapVersion(s') && gw'.upd == s.gws[g].upd && gw'.local == s.gws[g].local
    requires WriterOk(s'.omap, OmapVersion(s'), s'.done, gw')
    ensures Base(s')
  {
    HistAppend(s.log, w, 1);
    BoundsAppend(s.log, w, s.done, s.bounds);
    AloneInSection(s, g, g);
    assert GatewayOk(s.log, s.bounds, s.gws[g]);
    forall h | h in s'.gws
      ensures GatewayOk(s'.log, s'.bounds, s'.gws[h])
      ensures WriterOk(s'.omap, OmapVersion(s'), s'.done, s'.gws[h])
      ensures ReaderOk(s'.omap, OmapVersion(s'), s'.gws[h].upd)
    {
      AloneInSection(s, g, h);
      GatewayAppend(s.log, w, s.bounds, s.gws[h]);
    }
    assert LocksOk(s') && FreeOk(s');
  }

  lemma TailStep(op: Op, m: Store, todo: set<Key>, k: Key)
    requires k in todo && todo <= CascadeKeys(op, HeadApplied(op, m))
    ensures var all := CascadeKeys(op, HeadApplied(op, m));
            (HeadApplied(op, m) - (all - todo)) - {k} == HeadApplied(op, m) - (all - (todo - {k}))
  {
  }

  lemma WriteTailKeepsBase(s: State, e: Event)
    requires Base(s) && Enabled(s, e) && e.WriteTail?
    ensures Base(Step(s, e))
  {
    var g, gw, s' := e.g, s.gws[e.g], Step(s, e);
    assert WriterOk(s.omap, OmapVersion(s), s.done, gw);
    TailStep(gw.rpc.op, Serial(s.done), gw.rpc.todo, e.k);
    WriteKeepsBase(s, s', g, Del(e.k), s'.gws[g]);
  }

  lemma WriteHeadKeepsBase(s: State, e: Event)
    requires Base(s) && Enabled(s, e) && e.WriteHead?
    ensures Base(Step(s, e))
  {
    var g, gw, s' := e.g, s.gws[e.g], Step(s, e);
    var op := gw.rpc.op;
    assert WriterOk(s.omap, OmapVersion(s), s.done, gw);
    var m := HeadApplied(op, s.omap);
    assert m - (CascadeKeys(op, m) - CascadeKeys(op, m)) == m;
    if op.DropIfPresent? && op.k !in s.omap {
      assert m == s.omap;
      AloneInSection(s, g, g);
      RequestOn(s, s', g);
    } else {
      WriteKeepsBase(s, s', g, HeadWrite(op), s'.gws[g]);
    }
  }

  lemma OmapHalfDone(omap: Store, version: nat, done: seq<Op>, gw: Gateway)
    requires WriterOk(omap, version, done, gw) && gw.rpc.OmapTail? && gw.rpc.todo == {}
    ensures WriterOk(omap, version, done + [gw.rpc.op], gw.(rpc := LocalHead(gw.rpc.op)))
  {
    SerialAppend(done, gw.rpc.op);
    assert omap == OmapHalf(gw.rpc.op, Serial(done));
  }

  lemma EndOmapKeepsBase(s: State, e: Event)
    requires Base(s) && Enabled(s, e) && e.EndOmap?
    ensures Base(Step(s, e))
  {
    var gw, s' := s.gws[e.g], Step(s, e);
    BoundsLater(s.log, s.done, gw.rpc.op, s.bounds);
    OmapHalfDone(s.omap, OmapVersion(s), s.done, gw);
    forall h | h in s'.gws
      ensures GatewayOk(s'.log, s'.bounds, s'.gws[h])
      ensures WriterOk(s'.omap, OmapVersion(s'), s'.done, s'.gws[h])
      ensures ReaderOk(s'.omap, OmapVersion(s'), s'.gws[h].upd)
    {
      AloneInSection(s, e.g, h);
      assert GatewayOk(s.log, s.bounds, s.gws[h]);
    }
    assert LocksOk(s') && FreeOk(s');
  }

  /** A step that changes one gateway, and the locks at most, is checked on that gateway alone. */
  lemma OwnStepKeepsBase(s: State, s': State, g: Gw)
    requires Base(s) && g in s.gws && g in s'.gws
    requires s' == With(s, g, s'.gws[g]).(writer := s'.writer, readers := s'.readers)
    requires GatewayOk(s.log, s.bounds, s'.gws[g])
    requires WriterOk(s.omap, OmapVersion(s), s.done, s'.gws[g])
    requires ReaderOk(s.omap, OmapVersion(s), s'.gws[g].upd)
    requires s'.writer == if !s'.gws[g].rpc.Idle? then Some(g) else if s.writer == Some(g) then None else s.writer
    requires !s'.gws[g].rpc.Idle? ==> s.writer == None || s.writer == Some(g)
    requires s'.readers == if s'.gws[g].upd.Reading? then s.readers + {g} else s.readers - {g}
    requires s'.writer.Some? ==> s'.readers == {}
    requires FreeOk(s')
    ensures Base(s')
  {
    assert LocksOk(s');
    assert BoundsOk(s'.log, s'.done, s'.bounds);
    forall h | h in s'.gws
      ensures GatewayOk(s'.log, s'.bounds, s'.gws[h])
      ensures WriterOk(s'.omap, OmapVersion(s'), s'.done, s'.gws[h])
      ensures ReaderOk(s'.omap, OmapVersion(s'), s'.gws[h].upd)
    {
      if h != g { assert s'.gws[h] == s.gws[h]; }
    }
  }

  /** A step of the request thread inside the section that writes nothing to the OMAP. */
  lemma RequestOn(s: State, s': State, g: Gw)
    requires Base(s) && g in s.gws && InSection(s.gws[g].rpc) && g in s'.gws && InSection(s'.gws[g].rpc)
    requires s' == With(s, g, s'.gws[g]) && s'.gws[g].version == s.gws[g].version && s'.gws[g].upd == s.gws[g].upd
    requires WriterOk(s.omap, OmapVersion(s), s.done, s'.gws[g])
    ensures Base(s')
  {
    AloneInSection(s, g, g);
    assert GatewayOk(s.log, s.bounds, s.gws[g]);
    assert GatewayOk(s.log, s.bounds, s'.gws[g]);
    assert s.readers - {g} == s.readers;
    OwnStepKeepsBase(s, s', g);
  }

  lemma StartLocalKeepsBase(s: State, e: Event)
    requires Base(s) && Enabled(s, e) && e.StartLocal?
    ensures Base(Step(s, e))
  {
    assert WriterOk(s.omap, OmapVersion(s), s.done, s.gws[e.g]);
    RequestOn(s, Step(s, e), e.g);
  }

  lemma LocalStepKeepsBase(s: State, e: Event)
    requires Base(s) && Enabled(s, e) && e.LocalStep?
    ensures Base(Step(s, e))
  {
    assert WriterOk(s.omap, OmapVersion(s), s.done, s.gws[e.g]);
    RequestOn(s, Step(s, e), e.g);
  }

  lemma EndLocalKeepsBase(s: State, e: Event)
    requires Base(s) && Enabled(s, e) && e.EndLocal?
    ensures Base(Step(s, e))
  {
    assert WriterOk(s.omap, OmapVersion(s), s.done, s.gws[e.g]);
    RequestOn(s, Step(s, e), e.g);
  }

  lemma BeginKeepsBase(s: State, e: Event)
    requires Base(s) && Enabled(s, e) && e.Begin?
    ensures Base(Step(s, e))
  {
    assert WriterOk(s.omap, OmapVersion(s), s.done, s.gws[e.g]);
    RequestOn(s, Step(s, e), e.g);
  }

  lemma LockKeepsBase(s: State, e: Event)
    requires Base(s) && Enabled(s, e) && e.Lock?
    ensures Base(Step(s, e))
  {
    var gw := s.gws[e.g];
    assert GatewayOk(s.log, s.bounds, gw) && GatewayOk(s.log, s.bounds, gw.(rpc := Locked));
    assert s.readers - {e.g} == s.readers;
    OwnStepKeepsBase(s, Step(s, e), e.g);
  }

  lemma CheckKeepsBase(s: State, e: Event)
    requires Base(s) && Enabled(s, e) && e.Check?
    ensures Base(Step(s, e))
  {
    var gw := s.gws[e.g];
    assert s.writer == Some(e.g) && s.readers - {e.g} == s.readers;
    FreeContents(s);
    assert GatewayOk(s.log, s.bounds, gw);
    assert OmapVersion(s) > gw.version ==> GatewayOk(s.log, s.bounds, gw.(rpc := Idle));
    assert OmapVersion(s) <= gw.version ==> GatewayOk(s.log, s.bounds, gw.(rpc := Verified));
    OwnStepKeepsBase(s, Step(s, e), e.g);
  }

  /** Inside the section the current version may be recorded as a boundary between operations. */
  lemma RecordBoundary(s: State)
    requires Base(s) && s.writer.Some? && s.gws[s.writer.value].rpc.Verified?
    ensures Base(s.(bounds := s.bounds[OmapVersion(s) := |s.done|]))
  {
    var bounds := s.bounds[OmapVersion(s) := |s.done|];
    HistAppend(s.log, Del(Version), 1);
    assert s.done[..|s.done|] == s.done;
    assert BoundsOk(s.log, s.done, bounds);
    forall h | h in s.gws ensures GatewayOk(s.log, bounds, s.gws[h]) {}
  }

  lemma LeaveSection(s: State, g: Gw)
    requires Base(s) && g in s.gws && s.gws[g].rpc.Verified?
    requires OmapVersion(s) in s.bounds && s.bounds[OmapVersion(s)] == |s.done|
    ensures Base(Released(s, g, s.gws[g]))
  {
    assert s.writer == Some(g) && s.readers - {g} == s.readers;
    assert WriterOk(s.omap, OmapVersion(s), s.done, s.gws[g]);
    assert GatewayOk(s.log, s.bounds, s.gws[g]) && GatewayOk(s.log, s.bounds, s.gws[g].(rpc := Idle));
    OwnStepKeepsBase(s, Released(s, g, s.gws[g]), g);
  }

  lemma UnlockKeepsBase(s: State, e: Event)
    requires Base(s) && Enabled(s, e) && e.Unlock?
    ensures Base(Step(s, e))
  {
    assert s.writer == Some(e.g);
    RecordBoundary(s);
    var s1 := s.(bounds := s.bounds[OmapVersion(s) := |s.done|]);
    LeaveSection(s1, e.g);
    assert Step(s, e) == Released(s1, e.g, s1.gws[e.g]);
  }

  lemma WriterIgnoresUpdate(omap: Store, version: nat, done: seq<Op>, gw: Gateway, upd: Upd)
    requires WriterOk(omap, version, done, gw)
    ensures WriterOk(omap, version, done, gw.(upd := upd))
  {
  }

  lemma ReadingGateway(s: State, g: Gw, upd: Upd)
    requires Base(s) && g in s.gws && s.writer == None && upd.Reading?
    requires s.gws[g].upd.Reading? || s.gws[g].upd.Resting?
    ensures var gw := s.gws[g].(upd := upd);
            GatewayOk(s.log, s.bounds, gw) && WriterOk(s.omap, OmapVersion(s), s.done, gw) && gw.rpc.Idle?
  {
    assert GatewayOk(s.log, s.bounds, s.gws[g]);
    WriterIgnoresUpdate(s.omap, OmapVersion(s), s.done, s.gws[g], upd);
    WriterIsBusy(s, g);
  }

  /** A step of the update thread to a state in which it reads. */
  lemma ReadingOn(s: State, g: Gw, upd: Upd)
    requires Base(s) && g in s.gws && s.writer == None && upd.Reading? && ReaderOk(s.omap, OmapVersion(s), upd)
    requires s.gws[g].upd.Reading? || s.gws[g].upd.Resting?
    ensures Base(With(s, g, s.gws[g].(upd := upd)).(readers := s.readers + {g}))
  {
    ReadingGateway(s, g, upd);
    OwnStepKeepsBase(s, With(s, g, s.gws[g].(upd := upd)).(readers := s.readers + {g}), g);
  }

  lemma StartReadKeepsBase(s: State, e: Event)
    requires Base(s) && Enabled(s, e) && e.StartRead?
    ensures Base(Step(s, e))
  {
    ReadingOn(s, e.g, Reading(None, map[]));
  }

  lemma ReadPageKeepsBase(s: State, e: Event)
    requires Base(s) && Enabled(s, e) && e.ReadPage?
    ensures Base(Step(s, e))
  {
    var upd := Step(s, e).gws[e.g].upd;
    assert ReaderOk(s.omap, OmapVersion(s), s.gws[e.g].upd);
    assert ReaderOk(s.omap, OmapVersion(s), upd);
    assert s.readers + {e.g} == s.readers && s.writer == None;
    ReadingOn(s, e.g, upd);
  }

  lemma FreeKept(s: State, s': State, g: Gw, gw': Gateway)
    requires FreeOk(s) && g in s.gws && s'.gws == s.gws[g := gw'] && gw'.rpc == s.gws[g].rpc
    requires s'.log == s.log && s'.done == s.done && s'.bounds == s.bounds && s'.writer == s.writer
    ensures FreeOk(s')
  {
  }

  /** A step of the update thread to a state in which it does not read. */
  lemma UpdateOn(s: State, g: Gw, gw': Gateway)
    requires Base(s) && g in s.gws && !gw'.upd.Reading? && gw'.rpc == s.gws[g].rpc
    requires GatewayOk(s.log, s.bounds, gw') && WriterOk(s.omap, OmapVersion(s), s.done, gw')
    ensures Base(With(s, g, gw').(readers := s.readers - {g}))
  {
    var s' := With(s, g, gw').(readers := s.readers - {g});
    FreeKept(s, s', g, gw');
    forall h | h in s'.gws
      ensures GatewayOk(s'.log, s'.bounds, s'.gws[h])
      ensures WriterOk(s'.omap, OmapVersion(s'), s'.done, s'.gws[h])
      ensures ReaderOk(s'.omap, OmapVersion(s'), s'.gws[h].upd)
    {
      if h != g { assert s'.gws[h] == s.gws[h]; }
    }
    assert LocksOk(s');
  }

  lemma EndReadKeepsBase(s: State, e: Event)
    requires Base(s) && Enabled(s, e) && e.EndRead?
    ensures Base(Step(s, e))
  {
    var gw := s.gws[e.g];
    assert e.g in s.readers && s.writer == None;
    FreeContents(s);
    assert ReaderOk(s.omap, OmapVersion(s), gw.upd) && GatewayOk(s.log, s.bounds, gw);
    assert gw.upd.got == s.omap;
    var upd := Fetched(gw.upd.seen.value, gw.upd.got);
    WriterIgnoresUpdate(s.omap, OmapVersion(s), s.done, gw, upd);
    UpdateOn(s, e.g, gw.(upd := upd));
  }

  lemma RestingOk(log: seq<Write>, bounds: map<nat, nat>, gw: Gateway)
    requires GatewayOk(log, bounds, gw) && !gw.upd.Adopting?
    ensures GatewayOk(log, bounds, gw.(upd := Resting))
  {
  }

  lemma StopUpdate(s: State, g: Gw)
    requires Base(s) && g in s.gws && !s.gws[g].upd.Adopting?
    ensures Base(With(s, g, s.gws[g].(upd := Resting)).(readers := s.readers - {g}))
  {
    RestingOk(s.log, s.bounds, s.gws[g]);
    WriterIgnoresUpdate(s.omap, OmapVersion(s), s.done, s.gws[g], Resting);
    UpdateOn(s, g, s.gws[g].(upd := Resting));
  }

  /** A stale gateway is not in the section: there its version would be current. */
  lemma StaleIsOutside(s: State, g: Gw)
    requires Base(s) && g in s.gws && s.gws[g].upd.Fetched? && s.gws[g].version < s.gws[g].upd.ver
    ensures !InSection(s.gws[g].rpc)
  {
    assert GatewayOk(s.log, s.bounds, s.gws[g]) && WriterOk(s.omap, OmapVersion(s), s.done, s.gws[g]);
  }

  lemma DecideKeepsBase(s: State, e: Event)
    requires Base(s) && Enabled(s, e) && e.Decide?
    ensures Base(Step(s, e))
  {
    var gw := s.gws[e.g];
    assert s.readers - {e.g} == s.readers;
    if gw.version < gw.upd.ver {
      StaleIsOutside(s, e.g);
      assert GatewayOk(s.log, s.bounds, gw);
      var upd := Replaying(gw.upd.ver, gw.upd.snap, gw.local);
      WriterIgnoresUpdate(s.omap, OmapVersion(s), s.done, gw, upd);
      UpdateOn(s, e.g, gw.(upd := upd));
    } else {
      StopUpdate(s, e.g);
    }
  }

  lemma ResetKeepsBase(s: State, e: Event)
    requires Base(s) && Enabled(s, e) && e.Reset?
    ensures Base(Step(s, e))
  {
    assert GatewayOk(s.log, s.bounds, s.gws[e.g]);
    assert e.g !in s.readers && s.readers - {e.g} == s.readers;
    UpdateOn(s, e.g, Step(s, e).gws[e.g]);
  }

  lemma SetVersionKeepsBase(s: State, e: Event)
    requires Base(s) && Enabled(s, e) && e.SetVersion?
    ensures Base(Step(s, e))
  {
    assert GatewayOk(s.log, s.bounds, s.gws[e.g]);
    assert e.g !in s.readers && s.readers - {e.g} == s.readers;
    UpdateOn(s, e.g, Step(s, e).gws[e.g]);
  }

  /** Under the lock the compare of a compare-and-set never fails. */
  lemma CasNeverFails(s: State, g: Gw)
    requires Base(s)
    ensures !Enabled(s, CasFails(g))
  {
  }

  /** The steps of an update. */
  predicate IsUpdateStep(e: Event) {
    e.StartRead? || e.ReadPage? || e.EndRead? || e.Decide? || e.Reset? || e.SetVersion? || e.AbortUpdate?
  }

  lemma UpdateStepKeepsBase(s: State, e: Event)
    requires Base(s) && Enabled(s, e) && IsUpdateStep(e)
    ensures Base(Step(s, e))
  {
    if e.StartRead? { StartReadKeepsBase(s, e); }
    else if e.ReadPage? { ReadPageKeepsBase(s, e); }
    else if e.EndRead? { EndReadKeepsBase(s, e); }
    else if e.Decide? { DecideKeepsBase(s, e); }
    else if e.Reset? { ResetKeepsBase(s, e); }
    else if e.SetVersion? { SetVersionKeepsBase(s, e); }
    else { StopUpdate(s, e.g); }
  }

  lemma StepKeepsBase(s: State, e: Event)
    requires Base(s) && Enabled(s, e)
    ensures Base(Step(s, e))
  {
    if e.WriteHead? { WriteHeadKeepsBase(s, e); }
    else if e.WriteTail? { WriteTailKeepsBase(s, e); }
    else if e.EndOmap? { EndOmapKeepsBase(s, e); }
    else if e.CasFails? { CasNeverFails(s, e.g); }
    else if e.StartLocal? { StartLocalKeepsBase(s, e); }
    else if e.LocalStep? { LocalStepKeepsBase(s, e); }
    else if e.EndLocal? { EndLocalKeepsBase(s, e); }
    else if e.Lock? { LockKeepsBase(s, e); }
    else if e.Check? { CheckKeepsBase(s, e); }
    else if e.Begin? { BeginKeepsBase(s, e); }
    else if e.Unlock? { UnlockKeepsBase(s, e); }
    else { UpdateStepKeepsBase(s, e); }
  }

  // ----- the gateways' copies -----

  /** A copy is the history at the gateway's version; just before the version is recorded at the end of an
      update it is already the history at the version about to be recorded. */
  ghost predicate CopyIsHistory(log: seq<Write>, gw: Gateway) {
    if gw.upd.Adopting? then 1 <= gw.version < gw.upd.ver <= |log| + 1 && gw.local == Hist(log, gw.upd.ver)
    else 1 <= gw.version <= |log| + 1 && gw.local == Hist(log, gw.version)
  }

  /** Not between the OMAP half and the local half of a handler call. */
  predicate BetweenHalves(rpc: Rpc) {
    rpc.OmapTail? || rpc.LocalHead? || rpc.LocalTail?
  }

  /** What a copy holds that has never missed a part of an operation. */
  ghost predicate CopyOk(log: seq<Write>, done: seq<Op>, gw: Gateway) {
    match gw.rpc
    case Idle => CopyIsHistory(log, gw)
    case Locked => CopyIsHistory(log, gw)
    case LocalHead(_) => done != [] && gw.local == Serial(done[..|done| - 1])
    case LocalTail(_, todo) => gw.local - todo == Serial(done)
    case _ => gw.local == Serial(done)
  }

  ghost predicate CopyAt(s: State, g: Gw) {
    g in s.gws && CopyOk(s.log, s.done, s.gws[g])
  }

  ghost predicate Copies(s: State) {
    forall g | g in s.gws :: CopyOk(s.log, s.done, s.gws[g])
  }

  /** The operations of which the local half has begun: all but one whose OMAP half is just complete. */
  function LocallyDone(s: State): seq<Op> {
    if s.done != [] && AtLocalHead(s) then s.done[..|s.done| - 1] else s.done
  }

  predicate AtLocalHead(s: State) {
    s.writer.Some? && s.writer.value in s.gws && s.gws[s.writer.value].rpc.LocalHead?
  }

  /** Every operation found its head key stored, or nothing that depends on it. */
  ghost predicate AllAgree(ops: seq<Op>) {
    forall i | 0 <= i < |ops| :: Agreeing(ops[i], Serial(ops[..i]))
  }

  lemma AgreeBefore(ops: seq<Op>, n: nat)
    requires AllAgree(ops) && n <= |ops|
    ensures AllAgree(ops[..n])
  {
    forall i | 0 <= i < n ensures Agreeing(ops[..n][i], Serial(ops[..n][..i])) { assert ops[..n][..i] == ops[..i]; }
  }

  lemma AgreePrefix(ops: seq<Op>, more: seq<Op>)
    requires AllAgree(more) && ops <= more
    ensures AllAgree(ops)
  {
    AgreeBefore(more, |ops|);
    assert more[..|ops|] == ops;
  }

  lemma AgreeAfter(ops: seq<Op>, op: Op)
    requires AllAgree(ops)
    ensures AllAgree(ops + [op]) <==> Agreeing(op, Serial(ops))
  {
    forall i | 0 <= i < |ops| ensures Agreeing((ops + [op])[i], Serial((ops + [op])[..i])) {
      assert (ops + [op])[..i] == ops[..i];
    }
    assert (ops + [op])[..|ops|] == ops;
  }

  /** Copies of gateways outside the section stay what they are when a write or an operation is added. */
  lemma OtherCopyKept(s: State, t: State, h: Gw)
    requires Base(s) && h in s.gws && s.gws[h].rpc.Idle? && CopyOk(s.log, s.done, s.gws[h])
    requires t.log == s.log || exists w :: t.log == s.log + [w]
    ensures CopyOk(t.log, t.done, s.gws[h])
  {
    var gw := s.gws[h];
    assert GatewayOk(s.log, s.bounds, gw);
    if t.log != s.log {
      var w :| t.log == s.log + [w];
      HistAppend(s.log, w, gw.version);
      if gw.upd.Adopting? { HistAppend(s.log, w, gw.upd.ver); }
    }
  }

  /** The local half of an agreeing operation brings the copy to what the OMAP half has made of the OMAP. */
  lemma AgreeingHalf(op: Op, m: Store)
    ensures Agreeing(op, m) && LocalRaises(op, m) ==> OmapHalf(op, m) == m
    ensures !Agreeing(op, m) ==> LocalRaises(op, m) && OmapHalf(op, m) != m
  {
    HalvesAgree(op, m);
  }

  lemma StartLocalCopy(s: State, e: Event)
    requires Base(s) && Copies(s) && Enabled(s, e) && e.StartLocal?
    requires Agreeing(s.gws[e.g].rpc.op, s.gws[e.g].local)
    ensures CopyAt(Step(s, e), e.g)
  {
    var gw := s.gws[e.g];
    var op, prev := gw.rpc.op, s.done[..|s.done| - 1];
    assert WriterOk(s.omap, OmapVersion(s), s.done, gw) && CopyOk(s.log, s.done, gw);
    assert s.done == prev + [op];
    SerialAppend(prev, op);
    AgreeingHalf(op, gw.local);
  }

  lemma EndOmapCopy(s: State, e: Event)
    requires Base(s) && Copies(s) && Enabled(s, e) && e.EndOmap?
    ensures CopyAt(Step(s, e), e.g)
  {
    assert CopyOk(s.log, s.done, s.gws[e.g]);
    assert (s.done + [s.gws[e.g].rpc.op])[..|s.done|] == s.done;
  }

  lemma LocalCopy(s: State, e: Event)
    requires Base(s) && Copies(s) && Enabled(s, e) && (e.LocalStep? || e.EndLocal?)
    ensures CopyAt(Step(s, e), e.g)
  {
    var gw := s.gws[e.g];
    assert CopyOk(s.log, s.done, gw);
    if e.LocalStep? {
      assert gw.local - gw.rpc.todo == (gw.local - {e.k}) - (gw.rpc.todo - {e.k});
    } else {
      assert gw.local - {} == gw.local;
    }
  }

  lemma LockCopy(s: State, e: Event)
    requires Base(s) && Copies(s) && Enabled(s, e) && e.Lock?
    ensures CopyAt(Step(s, e), e.g)
  {
    assert CopyOk(s.log, s.done, s.gws[e.g]);
  }

  lemma CheckCopy(s: State, e: Event)
    requires Base(s) && Copies(s) && Enabled(s, e) && e.Check?
    ensures CopyAt(Step(s, e), e.g)
  {
    var gw := s.gws[e.g];
    assert CopyOk(s.log, s.done, gw) && GatewayOk(s.log, s.bounds, gw) && s.writer == Some(e.g);
    FreeContents(s);
    if OmapVersion(s) > gw.version {
      assert CopyOk(s.log, s.done, gw.(rpc := Idle));
    } else {
      assert gw.local == Hist(s.log, OmapVersion(s));
      assert CopyOk(s.log, s.done, gw.(rpc := Verified));
    }
  }

  lemma UnlockCopy(s: State, e: Event)
    requires Base(s) && Copies(s) && Enabled(s, e) && e.Unlock?
    ensures CopyAt(Step(s, e), e.g)
  {
    var gw := s.gws[e.g];
    HistAppend(s.log, Del(Version), 1);
    assert CopyOk(s.log, s.done, gw) && GatewayOk(s.log, s.bounds, gw);
    assert WriterOk(s.omap, OmapVersion(s), s.done, gw);
    assert CopyOk(s.log, s.done, gw.(rpc := Idle));
  }

  /** The steps inside the section before the local half, which write nothing to the copy. */
  lemma OmapCopy(s: State, e: Event)
    requires Base(s) && Copies(s) && Enabled(s, e) && (e.Begin? || e.WriteHead? || e.WriteTail?)
    ensures CopyAt(Step(s, e), e.g)
  {
    assert CopyOk(s.log, s.done, s.gws[e.g]);
  }

  lemma ReadCopy(s: State, e: Event)
    requires Base(s) && Copies(s) && Enabled(s, e) && (e.StartRead? || e.ReadPage? || e.EndRead? || e.Decide?)
    ensures CopyAt(Step(s, e), e.g)
  {
    assert CopyOk(s.log, s.done, s.gws[e.g]);
  }

  lemma AdoptCopy(s: State, e: Event)
    requires Base(s) && Copies(s) && Enabled(s, e) && (e.Reset? || e.SetVersion? || e.AbortUpdate?)
    ensures CopyAt(Step(s, e), e.g)
  {
    assert CopyOk(s.log, s.done, s.gws[e.g]) && GatewayOk(s.log, s.bounds, s.gws[e.g]);
  }

  lemma UpdateStepCopy(s: State, e: Event)
    requires Base(s) && Copies(s) && Enabled(s, e) && IsUpdateStep(e)
    ensures CopyAt(Step(s, e), e.g)
  {
    if e.Reset? || e.SetVersion? || e.AbortUpdate? { AdoptCopy(s, e); } else { ReadCopy(s, e); }
  }

  lemma OwnCopy(s: State, e: Event)
    requires Base(s) && Copies(s) && Enabled(s, e)
    requires e.StartLocal? ==> Agreeing(s.gws[e.g].rpc.op, s.gws[e.g].local)
    ensures CopyAt(Step(s, e), e.g)
  {
    if e.StartLocal? { StartLocalCopy(s, e); }
    else if e.EndOmap? { EndOmapCopy(s, e); }
    else if e.CasFails? { CasNeverFails(s, e.g); }
    else if e.LocalStep? || e.EndLocal? { LocalCopy(s, e); }
    else if e.Lock? { LockCopy(s, e); }
    else if e.Check? { CheckCopy(s, e); }
    else if e.Unlock? { UnlockCopy(s, e); }
    else if IsUpdateStep(e) { UpdateStepCopy(s, e); }
    else { OmapCopy(s, e); }
  }

  lemma OthersKept(s: State, e: Event)
    requires Enabled(s, e)
    ensures e.g in Step(s, e).gws && Step(s, e).gws == s.gws[e.g := Step(s, e).gws[e.g]]
  {
  }

  /** Only the gateway in the section adds to the log or to the completed operations. */
  lemma HistoryStep(s: State, e: Event)
    requires Enabled(s, e)
    ensures Step(s, e).log == s.log || exists w :: Step(s, e).log == s.log + [w]
    ensures Step(s, e).log != s.log || Step(s, e).done != s.done ==> InSection(s.gws[e.g].rpc)
    ensures Step(s, e).done == if e.EndOmap? then s.done + [s.gws[e.g].rpc.op] else s.done
  {
  }

  lemma StepKeepsCopies(s: State, e: Event)
    requires Base(s) && Copies(s) && Enabled(s, e)
    requires e.StartLocal? ==> Agreeing(s.gws[e.g].rpc.op, s.gws[e.g].local)
    ensures Copies(Step(s, e))
  {
    var t := Step(s, e);
    OwnCopy(s, e);
    OthersKept(s, e);
    HistoryStep(s, e);
    forall h | h in t.gws ensures CopyOk(t.log, t.done, t.gws[h]) {
      if h != e.g {
        assert CopyOk(s.log, s.done, s.gws[h]);
        if t.log != s.log || t.done != s.done {
          AloneInSection(s, e.g, h);
          OtherCopyKept(s, t, h);
        }
      }
    }
  }

  lemma InsideIsWriter(s: State, e: Event)
    requires LocksOk(s) && Enabled(s, e) && !s.gws[e.g].rpc.Idle?
    ensures s.writer == Some(e.g) && (AtLocalHead(s) <==> s.gws[e.g].rpc.LocalHead?)
  {
  }

  lemma HeadStep(s: State, e: Event)
    requires LocksOk(s) && Enabled(s, e)
    ensures AtLocalHead(Step(s, e)) <==> e.EndOmap? || (AtLocalHead(s) && !e.StartLocal?)
  {
    if !s.gws[e.g].rpc.Idle? { InsideIsWriter(s, e); }
  }

  lemma LocallyDoneStep(s: State, e: Event)
    requires Base(s) && Enabled(s, e)
    ensures LocallyDone(Step(s, e)) == if e.StartLocal? then s.done else LocallyDone(s)
    ensures e.StartLocal? ==>
              s.done != [] && LocallyDone(s) == s.done[..|s.done| - 1] && s.gws[e.g].rpc.op == s.done[|s.done| - 1]
  {
    HeadStep(s, e);
    HistoryStep(s, e);
    if e.StartLocal? {
      assert WriterOk(s.omap, OmapVersion(s), s.done, s.gws[e.g]);
      InsideIsWriter(s, e);
    } else if e.EndOmap? {
      InsideIsWriter(s, e);
      assert (s.done + [s.gws[e.g].rpc.op])[..|s.done|] == s.done;
    }
  }

  /** The whole invariant: the copies are right as long as every operation has agreed. */
  ghost predicate Inv(s: State) {
    Base(s) && (AllAgree(LocallyDone(s)) ==> Copies(s))
  }

  lemma AgreedUpTo(s: State, e: Event)
    requires Inv(s) && Enabled(s, e) && AllAgree(LocallyDone(Step(s, e)))
    ensures Copies(s) && (e.StartLocal? ==> Agreeing(s.gws[e.g].rpc.op, s.gws[e.g].local))
  {
    LocallyDoneStep(s, e);
    if e.StartLocal? { LastAgrees(s, e.g); }
  }

  lemma LastAgrees(s: State, g: Gw)
    requires Inv(s) && g in s.gws && s.gws[g].rpc.LocalHead? && s.done != [] && AllAgree(s.done)
    requires LocallyDone(s) == s.done[..|s.done| - 1] && s.gws[g].rpc.op == s.done[|s.done| - 1]
    ensures Copies(s) && Agreeing(s.gws[g].rpc.op, s.gws[g].local)
  {
    AgreeBefore(s.done, |s.done| - 1);
    assert CopyOk(s.log, s.done, s.gws[g]);
  }

  lemma StepKeepsInv(s: State, e: Event)
    requires Inv(s) && Enabled(s, e)
    ensures Inv(Step(s, e))
  {
    StepKeepsBase(s, e);
    if AllAgree(LocallyDone(Step(s, e))) {
      AgreedUpTo(s, e);
      StepKeepsCopies(s, e);
    }
  }

  // ----- runs -----

  ghost predicate Moves(s: State, e: Event, t: State) {
    Enabled(s, e) && t == Step(s, e)
  }

  /** A run: the states and the events of any schedule the steps allow, for any number of gateways. */
  ghost predicate IsRun(ss: seq<State>, es: seq<Event>) {
    |ss| == |es| + 1 && Init(ss[0]) && forall i | 0 <= i < |es| :: Moves(ss[i], es[i], ss[i + 1])
  }

  lemma InitHolds(s: State)
    requires Init(s)
    ensures Inv(s) && LocallyDone(s) == []
  {
    assert s.done[..0] == s.done;
  }

  lemma MoveKeepsInv(s: State, e: Event, t: State)
    requires Inv(s) && Moves(s, e, t)
    ensures Inv(t)
  {
    StepKeepsInv(s, e);
  }

  lemma {:induction false} InvHolds(ss: seq<State>, es: seq<Event>, n: nat)
    requires IsRun(ss, es) && n <= |es|
    ensures Inv(ss[n])
  {
    if n == 0 {
      InitHolds(ss[0]);
    } else {
      InvHolds(ss, es, n - 1);
      assert Moves(ss[n - 1], es[n - 1], ss[(n - 1) + 1]);
      MoveKeepsInv(ss[n - 1], es[n - 1], ss[n]);
    }
  }

  lemma CopyIsHistoryHolds(t: State, g: Gw)
    requires Base(t) && Copies(t) && g in t.gws && !BetweenHalves(t.gws[g].rpc)
    ensures CopyIsHistory(t.log, t.gws[g])
  {
    var gw := t.gws[g];
    HistAppend(t.log, Del(Version), 1);
    assert GatewayOk(t.log, t.bounds, gw) && CopyOk(t.log, t.done, gw);
    if InSection(gw.rpc) { assert WriterOk(t.omap, OmapVersion(t), t.done, gw); }
  }

  /** Safety over every run: a gateway's version never exceeds the OMAP's, and as long as every operation found
      its head key stored or nothing that depends on it, the gateway's copy is exactly the history at its
      version whenever it is not between the two halves of a handler call. */
  lemma ReplicaIsHistory(ss: seq<State>, es: seq<Event>, n: nat, g: Gw)
    requires IsRun(ss, es) && n <= |es| && g in ss[n].gws
    ensures var t := ss[n];
            && t.omap == Hist(t.log, OmapVersion(t)) && 1 <= t.gws[g].version <= OmapVersion(t)
            && (AllAgree(LocallyDone(t)) && !BetweenHalves(t.gws[g].rpc) ==> CopyIsHistory(t.log, t.gws[g]))
  {
    InvHolds(ss, es, n);
    var t := ss[n];
    HistAppend(t.log, Del(Version), 1);
    assert GatewayOk(t.log, t.bounds, t.gws[g]);
    if AllAgree(LocallyDone(t)) && !BetweenHalves(t.gws[g].rpc) { CopyIsHistoryHolds(t, g); }
  }

  /** All gateways' copies are the history at their versions. */
  ghost predicate AllHistory(t: State) {
    forall g | g in t.gws && !BetweenHalves(t.gws[g].rpc) :: CopyIsHistory(t.log, t.gws[g])
  }

  lemma MoveLocallyDone(s: State, e: Event, t: State)
    requires Inv(s) && Moves(s, e, t)
    ensures LocallyDone(s) <= LocallyDone(t)
  {
    LocallyDoneStep(s, e);
  }

  lemma {:induction false} LocallyDoneGrows(ss: seq<State>, es: seq<Event>, m: nat, n: nat)
    requires IsRun(ss, es) && m <= n <= |es|
    ensures LocallyDone(ss[m]) <= LocallyDone(ss[n])
  {
    if m < n {
      LocallyDoneGrows(ss, es, m, n - 1);
      InvHolds(ss, es, n - 1);
      assert Moves(ss[n - 1], es[n - 1], ss[(n - 1) + 1]);
      MoveLocallyDone(ss[n - 1], es[n - 1], ss[n]);
    }
  }

  /** The local half of a disagreeing operation leaves a copy that is not the history. */
  lemma RaisedCopy(s: State, g: Gw)
    requires Base(s) && Copies(s) && g in s.gws && s.gws[g].rpc.LocalHead? && s.done != []
    requires s.gws[g].rpc.op == s.done[|s.done| - 1]
    requires !Agreeing(s.done[|s.done| - 1], Serial(s.done[..|s.done| - 1]))
    ensures LocalRaises(s.gws[g].rpc.op, s.gws[g].local) && !CopyIsHistory(s.log, s.gws[g])
  {
    var gw := s.gws[g];
    assert CopyOk(s.log, s.done, gw) && WriterOk(s.omap, OmapVersion(s), s.done, gw);
    assert GatewayOk(s.log, s.bounds, gw);
    LastOperation(s.done);
    AgreeingHalf(gw.rpc.op, gw.local);
    HistAppend(s.log, Del(Version), 1);
  }

  lemma LastOperation(done: seq<Op>)
    requires done != []
    ensures var prev, op := done[..|done| - 1], done[|done| - 1];
            && Serial(done) == OmapHalf(op, Serial(prev))
            && (AllAgree(prev) ==> (AllAgree(done) <==> Agreeing(op, Serial(prev))))
  {
    var prev, op := done[..|done| - 1], done[|done| - 1];
    assert done == prev + [op];
    SerialAppend(prev, op);
    if AllAgree(prev) { AgreeAfter(prev, op); }
  }

  lemma DisagreeingBreaks(s: State, e: Event, t: State)
    requires Inv(s) && AllAgree(LocallyDone(s)) && Moves(s, e, t) && !AllAgree(LocallyDone(t))
    ensures !AllHistory(t)
  {
    LocallyDoneStep(s, e);
    LastOperation(s.done);
    RaisedCopy(s, e.g);
    assert t.gws[e.g] == s.gws[e.g].(rpc := Verified) && t.log == s.log;
    assert !CopyIsHistory(t.log, t.gws[e.g]);
  }

  /** Up to the first disagreement all copies are the history; just after it one is not. */
  lemma {:induction false} SomeCopyBreaks(ss: seq<State>, es: seq<Event>, n: nat) returns (m: nat)
    requires IsRun(ss, es) && n <= |es| && !AllAgree(LocallyDone(ss[n]))
    ensures m <= n && !AllHistory(ss[m])
  {
    m := n;
    if n == 0 {
      assert false;
    } else if AllAgree(LocallyDone(ss[n - 1])) {
      InvHolds(ss, es, n - 1);
      assert Moves(ss[n - 1], es[n - 1], ss[(n - 1) + 1]);
      DisagreeingBreaks(ss[n - 1], es[n - 1], ss[n]);
    } else {
      m := SomeCopyBreaks(ss, es, n - 1);
    }
  }

  lemma AllHistoryHolds(t: State)
    requires Inv(t) && AllAgree(LocallyDone(t))
    ensures AllHistory(t)
  {
    forall g | g in t.gws && !BetweenHalves(t.gws[g].rpc) ensures CopyIsHistory(t.log, t.gws[g]) {
      CopyIsHistoryHolds(t, g);
    }
  }

  lemma HistoryAllAlong(ss: seq<State>, es: seq<Event>, n: nat)
    requires IsRun(ss, es) && n <= |es| && AllAgree(LocallyDone(ss[|es|]))
    ensures AllHistory(ss[n])
  {
    InvHolds(ss, es, n);
    LocallyDoneGrows(ss, es, n, |es|);
    AgreePrefix(LocallyDone(ss[n]), LocallyDone(ss[|es|]));
    AllHistoryHolds(ss[n]);
  }

  /** The condition is exact: in a run all copies are the history all the time, outside the halves of handler
      calls, if and only if every operation of which the local half has begun found its head key stored or
      nothing that depends on it. */
  lemma ReplicaIsHistoryExactly(ss: seq<State>, es: seq<Event>)
    requires IsRun(ss, es)
    ensures (forall n | 0 <= n <= |es| :: AllHistory(ss[n])) <==> AllAgree(LocallyDone(ss[|es|]))
  {
    if AllAgree(LocallyDone(ss[|es|])) {
      forall n | 0 <= n <= |es| ensures AllHistory(ss[n]) { HistoryAllAlong(ss, es, n); }
    } else {
      var m := SomeCopyBreaks(ss, es, |es|);
    }
  }

  /** Between two states nothing committed is taken back and no gateway goes back to an older version. */
  ghost predicate Grows(s: State, t: State) {
    && s.log <= t.log && s.done <= t.done && s.bounds.Keys <= t.bounds.Keys
    && s.gws.Keys == t.gws.Keys
    && forall g | g in s.gws :: s.gws[g].version <= t.gws[g].version
  }

  lemma OwnVersionGrows(s: State, e: Event)
    requires Base(s) && Enabled(s, e)
    ensures e.g in Step(s, e).gws && s.gws[e.g].version <= Step(s, e).gws[e.g].version
  {
    if e.SetVersion? {
      assert GatewayOk(s.log, s.bounds, s.gws[e.g]);
    } else {
      VersionKept(s, e);
    }
  }

  lemma VersionKept(s: State, e: Event)
    requires Enabled(s, e) && !e.SetVersion?
    ensures e.g in Step(s, e).gws && s.gws[e.g].version <= Step(s, e).gws[e.g].version
  {
  }

  lemma HistoryGrows(s: State, e: Event)
    requires Enabled(s, e)
    ensures s.log <= Step(s, e).log && s.done <= Step(s, e).done && s.bounds.Keys <= Step(s, e).bounds.Keys
  {
  }

  lemma StepGrows(s: State, e: Event)
    requires Base(s) && Enabled(s, e)
    ensures Grows(s, Step(s, e))
  {
    OwnVersionGrows(s, e);
    HistoryGrows(s, e);
    OthersKept(s, e);
    GrowsFromParts(s, Step(s, e), e.g);
  }

  lemma GrowsFromParts(s: State, t: State, g: Gw)
    requires s.log <= t.log && s.done <= t.done && s.bounds.Keys <= t.bounds.Keys
    requires g in s.gws && g in t.gws && t.gws == s.gws[g := t.gws[g]] && s.gws[g].version <= t.gws[g].version
    ensures Grows(s, t)
  {
  }

  lemma MoveGrows(s: State, e: Event, t: State)
    requires Inv(s) && Moves(s, e, t)
    ensures Grows(s, t)
  {
    StepGrows(s, e);
  }

  lemma GrowsOn(s: State, t: State, u: State)
    requires Grows(s, t) && Grows(t, u)
    ensures Grows(s, u)
  {
  }

  lemma RunGrowsByOne(ss: seq<State>, es: seq<Event>, i: nat)
    requires IsRun(ss, es) && i < |es|
    ensures Grows(ss[i], ss[i + 1])
  {
    InvHolds(ss, es, i);
    MoveGrows(ss[i], es[i], ss[i + 1]);
  }

  lemma {:induction false} RunGrows(ss: seq<State>, es: seq<Event>, m: nat, n: nat)
    requires IsRun(ss, es) && m <= n <= |es|
    ensures Grows(ss[m], ss[n])
  {
    if m < n {
      RunGrows(ss, es, m, n - 1);
      RunGrowsByOne(ss, es, n - 1);
      GrowsOn(ss[m], ss[n - 1], ss[n]);
    }
  }

  lemma CopyCovers(log: seq<Write>, more: seq<Write>, gw: Gateway)
    requires log <= more && !gw.upd.Adopting? && CopyIsHistory(more, gw) && |log| < gw.version
    ensures exists later :: gw.local == Fold(log + later)
  {
    var later := more[|log|..gw.version - 1];
    assert more[..gw.version - 1] == log + later;
    assert gw.local == Fold(log + later);
  }

  /** The gateway is at least at the version, and its copy is complete. */
  predicate Covers(gw: Gateway, version: nat) {
    !BetweenHalves(gw.rpc) && !gw.upd.Adopting? && version <= gw.version
  }

  /** No write is lost: what was committed by a moment is the beginning of the log at every later one, and when
      every operation has agreed, a gateway whose version covers it has it in its copy, applied in commit order. */
  lemma NoWriteLost(ss: seq<State>, es: seq<Event>, m: nat, n: nat, g: Gw)
    requires IsRun(ss, es) && m <= n <= |es| && g in ss[n].gws
    ensures var t, u := ss[m], ss[n];
            && Grows(t, u)
            && (AllAgree(LocallyDone(u)) && Covers(u.gws[g], OmapVersion(t)) ==>
                  exists later :: u.gws[g].local == Fold(t.log + later))
  {
    RunGrows(ss, es, m, n);
    InvHolds(ss, es, n);
    var t, u := ss[m], ss[n];
    if AllAgree(LocallyDone(u)) && Covers(u.gws[g], OmapVersion(t)) {
      CopyIsHistoryHolds(u, g);
      CopyCovers(t.log, u.log, u.gws[g]);
    }
  }

  /** An update adopts only something newer than the copy it replaces, and the copy it replaces is the
      one its difference was computed from: no local write can slip in between. */
  lemma UpdateNeverOverwritesNewer(ss: seq<State>, es: seq<Event>, n: nat, g: Gw)
    requires IsRun(ss, es) && n <= |es| && Enabled(ss[n], Reset(g))
    ensures var t := ss[n];
            var gw := t.gws[g];
            && 1 <= gw.version < gw.upd.ver <= OmapVersion(t)
            && gw.upd.base == gw.local && gw.upd.snap == Hist(t.log, gw.upd.ver)
            && (AllAgree(LocallyDone(t)) ==> gw.local == Hist(t.log, gw.version))
  {
    InvHolds(ss, es, n);
    var t := ss[n];
    assert GatewayOk(t.log, t.bounds, t.gws[g]);
    if AllAgree(LocallyDone(t)) { CopyIsHistoryHolds(t, g); }
  }

  /** Snapshot atomicity: what an update has read, page by page, is the result of a prefix of the completed
      operations, each applied as a whole. */
  lemma SnapshotIsSerial(ss: seq<State>, es: seq<Event>, n: nat, g: Gw)
    requires IsRun(ss, es) && n <= |es| && g in ss[n].gws
    requires var upd := ss[n].gws[g].upd; upd.Fetched? || upd.Replaying? || upd.Adopting?
    ensures var t := ss[n]; exists k :: 0 <= k <= |t.done| && t.gws[g].upd.snap == Serial(t.done[..k])
  {
    InvHolds(ss, es, n);
    var t := ss[n];
    var gw := t.gws[g];
    assert GatewayOk(t.log, t.bounds, gw);
    assert BoundsOk(t.log, t.done, t.bounds);
    assert gw.upd.snap == Serial(t.done[..t.bounds[gw.upd.ver]]);
  }

  /** Whenever no gateway is inside the exclusive section the OMAP holds exactly the completed operations;
      and readers never overlap a writer. */
  lemma OmapIsSerialWhenFree(ss: seq<State>, es: seq<Event>, n: nat)
    requires IsRun(ss, es) && n <= |es|
    ensures var t := ss[n];
            && (t.writer == None ==> t.omap == Serial(t.done))
            && (t.writer.Some? ==> t.readers == {})
            && forall g, h | g in t.gws && h in t.gws && !t.gws[g].rpc.Idle? && !t.gws[h].rpc.Idle? :: g == h
  {
    InvHolds(ss, es, n);
    if ss[n].writer == None { FreeContents(ss[n]); }
  }

  /** Over every run, the compare of a compare-and-set never fails. */
  lemma CasNeverFailsInRuns(ss: seq<State>, es: seq<Event>, n: nat, g: Gw)
    requires IsRun(ss, es) && n <= |es|
    ensures !Enabled(ss[n], CasFails(g))
  {
    InvHolds(ss, es, n);
    CasNeverFails(ss[n], g);
  }

  // ----- operations that fit the shared state -----

  /** Every operation fitted what the shared state held before it. */
  ghost predicate Fitting(ops: seq<Op>) {
    forall i | 0 <= i < |ops| :: Allowed(ops[i], Serial(ops[..i]))
  }

  /** Such operations agree, and everything in between is closed under parents. */
  lemma {:induction false} FittingIsClosed(ops: seq<Op>, n: nat)
    requires Fitting(ops) && n <= |ops|
    ensures Closed(Serial(ops[..n]).Keys) && AllAgree(ops[..n])
  {
    if n == 0 {
      assert ops[..0] == [];
    } else {
      FittingIsClosed(ops, n - 1);
      var prev := ops[..n - 1];
      assert ops[..n] == prev + [ops[n - 1]];
      SerialAppend(prev, ops[n - 1]);
      OpKeepsClosed(ops[n - 1], Serial(prev));
      AgreeAfter(prev, ops[n - 1]);
    }
  }

  /** When every completed operation fitted the shared state, every snapshot an update works with is closed under
      parents, and so are the copy it computes its difference from and the OMAP when the section is free. */
  lemma SnapshotIsClosed(ss: seq<State>, es: seq<Event>, n: nat, g: Gw)
    requires IsRun(ss, es) && n <= |es| && g in ss[n].gws && Fitting(ss[n].done)
    ensures var t := ss[n];
            var gw := t.gws[g];
            && (t.writer == None ==> Closed(t.omap.Keys))
            && (gw.upd.Fetched? || gw.upd.Replaying? || gw.upd.Adopting? ==> Closed(gw.upd.snap.Keys))
            && (gw.upd.Replaying? ==> Closed(gw.upd.base.Keys))
  {
    InvHolds(ss, es, n);
    FreeIsClosed(ss[n]);
    UpdateIsClosed(ss[n], g);
  }

  lemma FreeIsClosed(t: State)
    requires Base(t) && Fitting(t.done)
    ensures t.writer == None ==> Closed(t.omap.Keys)
  {
    FittingIsClosed(t.done, |t.done|);
    assert t.done[..|t.done|] == t.done;
    if t.writer == None { FreeContents(t); }
  }

  lemma UpdateIsClosed(t: State, g: Gw)
    requires Inv(t) && Fitting(t.done) && g in t.gws
    ensures var upd := t.gws[g].upd;
            && (upd.Fetched? || upd.Replaying? || upd.Adopting? ==> Closed(upd.snap.Keys))
            && (upd.Replaying? ==> Closed(upd.base.Keys))
  {
    var gw := t.gws[g];
    assert GatewayOk(t.log, t.bounds, gw);
    if gw.upd.Fetched? || gw.upd.Replaying? || gw.upd.Adopting? { BoundaryIsClosed(t, gw.upd.ver); }
    if gw.upd.Replaying? { OldCopyIsClosed(t, g); }
  }

  lemma OldCopyIsClosed(t: State, g: Gw)
    requires Inv(t) && Fitting(t.done) && g in t.gws && t.gws[g].upd.Replaying?
    ensures Closed(t.gws[g].upd.base.Keys)
  {
    assert GatewayOk(t.log, t.bounds, t.gws[g]);
    FittingIsClosed(t.done, |t.done|);
    assert t.done[..|t.done|] == t.done;
    AgreePrefix(LocallyDone(t), t.done);
    CopyIsHistoryHolds(t, g);
    BoundaryIsClosed(t, t.gws[g].version);
  }

  lemma BoundaryIsClosed(t: State, b: nat)
    requires Base(t) && Fitting(t.done) && b in t.bounds
    ensures 1 <= b <= |t.log| + 1 && Closed(Hist(t.log, b).Keys)
  {
    FittingIsClosed(t.done, t.bounds[b]);
  }
}
