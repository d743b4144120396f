/** The OMAP lock as the threads of one gateway process use it: a RADOS lock shared with other processes,
    and the process's own bookkeeping (`is_exclusively_locked`, `locked_by`, `lock_cookie`) guarded by
    `changes_lock`. Taking the RADOS lock, booking it, releasing it in RADOS and removing the booking are
    separate steps; the last two happen while `changes_lock` is held. */
module OmapLock {
  import opened Text

  type Tid = int

  datatype Kind = Exclusive | Shared

  /** The text of a lock cookie: the thread, a suffix (the read guard's start time, 0 for none) and the kind. */
  datatype Cookie = Cookie(thread: Tid, suffix: nat, kind: Kind)

  /** Where a thread is: `Acquired` holds the RADOS lock and has not booked it, `Booked` is inside the guard,
      `Releasing` is inside `unlock_omap` with `changes_lock` held and the RADOS lock given up. */
  datatype Pc = Outside | Acquired(c: Cookie) | Booked(c: Cookie) | Releasing(c: Cookie)

  /** `held` are the cookies RADOS holds for this process, `others` those of other processes. */
  datatype State = State(
    held: set<Cookie>, others: multiset<Kind>,
    changesLock: Option<Tid>, isExclusive: bool, lockedBy: map<(Tid, Kind), nat>, cookies: multiset<Cookie>,
    threads: map<Tid, Pc>)

  predicate Init(s: State) {
    && s.held == {} && s.others == multiset{} && s.changesLock == None && !s.isExclusive
    && s.lockedBy == map[] && s.cookies == multiset{}
    && forall t | t in s.threads :: s.threads[t] == Outside
  }

  /** What RADOS grants: an exclusive lock when nobody holds any, a shared one when nobody holds an
      exclusive one. Anything else is ObjectBusy. */
  predicate Grants(s: State, kind: Kind) {
    match kind
    case Exclusive => s.held == {} && s.others == multiset{}
    case Shared => (forall c | c in s.held :: c.kind.Shared?) && Exclusive !in s.others
  }

  datatype Event =
    | Acquire(t: Tid, suffix: nat, kind: Kind)
    | Book(t: Tid)
    | Release(t: Tid)
    | Unbook(t: Tid)
    | OtherAcquires(kind: Kind)
    | OtherReleases(kind: Kind)

  predicate Enabled(s: State, e: Event) {
    match e
    case Acquire(t, suffix, kind) =>
      t in s.threads && s.threads[t].Outside? && Grants(s, kind) && (kind.Exclusive? <==> suffix == 0)
    case Book(t) => t in s.threads && s.threads[t].Acquired? && s.changesLock == None
    case Release(t) => t in s.threads && s.threads[t].Booked? && s.changesLock == None
    case Unbook(t) => t in s.threads && s.threads[t].Releasing? && s.changesLock == Some(t)
    case OtherAcquires(kind) => Grants(s, kind)
    case OtherReleases(kind) => kind in s.others
  }

  function Plus(m: map<(Tid, Kind), nat>, k: (Tid, Kind)): map<(Tid, Kind), nat> {
    m[k := if k in m then m[k] + 1 else 1]
  }

  /** The decrement and the removal of a zero entry; a missing key is ignored. */
  function Minus(m: map<(Tid, Kind), nat>, k: (Tid, Kind)): map<(Tid, Kind), nat> {
    if k !in m then m else if m[k] <= 1 then m - {k} else m[k := m[k] - 1]
  }

  /** Booking and unbooking cancel, however often a key is booked. */
  lemma PlusThenMinus(m: map<(Tid, Kind), nat>, k: (Tid, Kind))
    requires k in m ==> m[k] >= 1
    ensures Minus(Plus(m, k), k) == m && k in Plus(m, k) && Plus(m, k)[k] == (if k in m then m[k] else 0) + 1
  {
  }

  function Step(s: State, e: Event): State
    requires Enabled(s, e)
  {
    match e
    case Acquire(t, suffix, kind) =>
      var c := Cookie(t, suffix, kind);
      s.(held := s.held + {c}, threads := s.threads[t := Acquired(c)])
    case Book(t) =>
      var c := s.threads[t].c;
      s.(lockedBy := Plus(s.lockedBy, (t, c.kind)), isExclusive := s.isExclusive || c.kind.Exclusive?,
         cookies := s.cookies + multiset{c}, threads := s.threads[t := Booked(c)])
    case Release(t) =>
      var c := s.threads[t].c;
      s.(held := s.held - {c}, changesLock := Some(t), threads := s.threads[t := Releasing(c)])
    case Unbook(t) =>
      var c := s.threads[t].c;
      s.(lockedBy := Minus(s.lockedBy, (t, c.kind)), isExclusive := s.isExclusive && c.kind.Shared?,
         cookies := s.cookies - multiset{c}, changesLock := None, threads := s.threads[t := Outside])
    case OtherAcquires(kind) => s.(others := s.others + multiset{kind})
    case OtherReleases(kind) => s.(others := s.others - multiset{kind})
  }

  /** The two assertions in `lock_omap` before an exclusive lock is booked. */
  predicate AssertionsHold(s: State, t: Tid)
    requires t in s.threads && s.threads[t].Acquired?
  {
    s.threads[t].c.kind.Exclusive? ==> !s.isExclusive && s.lockedBy == map[] && s.cookies == multiset{}
  }

  /** `write_locked_by_me`, evaluated under `changes_lock`; the write guard's cookie has no suffix (0). */
  predicate WriteLockedByMe(s: State, t: Tid) {
    s.isExclusive && (t, Exclusive) in s.lockedBy && Cookie(t, 0, Exclusive) in s.cookies
  }

  // ----- invariant -----

  /** The lock a thread has booked, if any: still booked while it is being released. */
  function BookedBy(threads: map<Tid, Pc>, t: Tid): Option<Cookie> {
    if t in threads && (threads[t].Booked? || threads[t].Releasing?) then Some(threads[t].c) else None
  }

  /** The lock RADOS holds for a thread, if any. */
  function HeldBy(threads: map<Tid, Pc>, t: Tid): Option<Cookie> {
    if t in threads && (threads[t].Acquired? || threads[t].Booked?) then Some(threads[t].c) else None
  }

  ghost predicate WellNamed(s: State) {
    forall t | t in s.threads && !s.threads[t].Outside? ::
      s.threads[t].c.thread == t && (s.threads[t].c.kind.Exclusive? <==> s.threads[t].c.suffix == 0)
  }

  ghost predicate RadosOk(s: State) {
    && (forall c :: c in s.held <==> HeldBy(s.threads, c.thread) == Some(c))
    && (forall c, d | c in s.held && d in s.held && c.kind.Exclusive? :: c == d)
    && (forall c | c in s.held && c.kind.Exclusive? :: s.others == multiset{})
    && (Exclusive in s.others ==> s.held == {})
  }

  ghost predicate ChangesLockOk(s: State) {
    forall t | t in s.threads :: s.threads[t].Releasing? <==> s.changesLock == Some(t)
  }

  ghost predicate BookingOk(s: State) {
    && (forall c :: s.cookies[c] == if BookedBy(s.threads, c.thread) == Some(c) then 1 else 0)
    && (forall t, k :: (t, k) in s.lockedBy <==> BookedBy(s.threads, t).Some? && BookedBy(s.threads, t).value.kind == k)
    && (forall t, k | (t, k) in s.lockedBy :: s.lockedBy[(t, k)] == 1)
    && (s.isExclusive <==> exists t :: IsExclusiveBooking(s.threads, t))
  }

  predicate IsExclusiveBooking(threads: map<Tid, Pc>, t: Tid) {
    BookedBy(threads, t).Some? && BookedBy(threads, t).value.kind.Exclusive?
  }

  /** An exclusive booking is alone among the bookings. */
  ghost predicate ExclusiveAlone(s: State) {
    forall t, u | IsExclusiveBooking(s.threads, t) && BookedBy(s.threads, u).Some? :: t == u
  }

  ghost predicate Inv(s: State) {
    WellNamed(s) && RadosOk(s) && ChangesLockOk(s) && BookingOk(s) && ExclusiveAlone(s)
  }

  lemma InitHolds(s: State)
    requires Init(s)
    ensures Inv(s)
  {}

  /** With `changes_lock` free, whatever is booked is held. */
  lemma BookedIsHeld(s: State, t: Tid)
    requires Inv(s) && s.changesLock == None && BookedBy(s.threads, t).Some?
    ensures BookedBy(s.threads, t).value in s.held
  {}

  lemma AcquireKeepsInv(s: State, e: Event)
    requires Inv(s) && Enabled(s, e) && e.Acquire?
    ensures Inv(Step(s, e))
  {
    var s' := Step(s, e);
    BookingUnchanged(s, s');
    assert forall u | u != e.t :: HeldBy(s'.threads, u) == HeldBy(s.threads, u);
  }

  lemma BookKeepsInv(s: State, e: Event)
    requires Inv(s) && Enabled(s, e) && e.Book?
    ensures Inv(Step(s, e))
    ensures AssertionsHold(s, e.t)
  {
    var s', c := Step(s, e), s.threads[e.t].c;
    forall u | BookedBy(s.threads, u).Some?
      ensures u != e.t && BookedBy(s.threads, u).value in s.held
      ensures c.kind.Shared? && BookedBy(s.threads, u).value.kind.Shared?
    {
      BookedIsHeld(s, u);
      assert c in s.held;
    }
    assert BookedBy(s'.threads, e.t) == Some(c);
    assert forall u | u != e.t :: BookedBy(s'.threads, u) == BookedBy(s.threads, u);
    assert forall u :: HeldBy(s'.threads, u) == HeldBy(s.threads, u);
    BookingAdded(s, s', e.t, c);
    if c.kind.Exclusive? { NothingBooked(s); }
  }

  lemma NothingBooked(s: State)
    requires BookingOk(s) && forall u :: BookedBy(s.threads, u) == None
    ensures !s.isExclusive && s.lockedBy == map[] && s.cookies == multiset{}
  {
    forall x: (Tid, Kind) ensures x !in s.lockedBy {
      var (t, k) := x;
      assert BookedBy(s.threads, t) == None;
      assert (t, k) !in s.lockedBy;
    }
    assert s.lockedBy.Keys == {};
    assert forall c :: s.cookies[c] == 0;
  }

  lemma BookingAdded(s: State, s': State, t: Tid, c: Cookie)
    requires BookingOk(s) && c.thread == t && BookedBy(s.threads, t) == None && BookedBy(s'.threads, t) == Some(c)
    requires forall u | u != t :: BookedBy(s'.threads, u) == BookedBy(s.threads, u)
    requires s'.cookies == s.cookies + multiset{c} && s'.lockedBy == Plus(s.lockedBy, (t, c.kind))
    requires s'.isExclusive == (s.isExclusive || c.kind.Exclusive?)
    ensures BookingOk(s')
  {
    assert (t, c.kind) !in s.lockedBy;
    if c.kind.Exclusive? {
      assert IsExclusiveBooking(s'.threads, t);
    } else if s.isExclusive {
      var u :| IsExclusiveBooking(s.threads, u);
      assert IsExclusiveBooking(s'.threads, u);
    } else {
      assert forall u :: IsExclusiveBooking(s'.threads, u) ==> IsExclusiveBooking(s.threads, u);
    }
  }

  /** The bookkeeping only depends on who has booked what. */
  lemma BookingUnchanged(s: State, s': State)
    requires BookingOk(s) && ExclusiveAlone(s) && forall u :: BookedBy(s'.threads, u) == BookedBy(s.threads, u)
    requires s'.cookies == s.cookies && s'.lockedBy == s.lockedBy && s'.isExclusive == s.isExclusive
    ensures BookingOk(s') && ExclusiveAlone(s')
  {
    assert forall u :: IsExclusiveBooking(s'.threads, u) == IsExclusiveBooking(s.threads, u);
  }

  lemma ReleaseKeepsInv(s: State, e: Event)
    requires Inv(s) && Enabled(s, e) && e.Release?
    ensures Inv(Step(s, e))
    ensures s.threads[e.t].c in s.held
  {
    var s' := Step(s, e);
    ReleaseGivesUp(s, e);
    BookingUnchanged(s, s');
    LockGivenUp(s, s', e.t, s.threads[e.t].c);
  }

  lemma ReleaseGivesUp(s: State, e: Event)
    requires Enabled(s, e) && e.Release?
    ensures var s' := Step(s, e);
            && HeldBy(s.threads, e.t) == Some(s.threads[e.t].c) && HeldBy(s'.threads, e.t) == None
            && (forall u | u != e.t :: HeldBy(s'.threads, u) == HeldBy(s.threads, u))
            && (forall u :: BookedBy(s'.threads, u) == BookedBy(s.threads, u))
  {
  }

  lemma LockGivenUp(s: State, s': State, t: Tid, c: Cookie)
    requires RadosOk(s) && c.thread == t && HeldBy(s.threads, t) == Some(c) && HeldBy(s'.threads, t) == None
    requires forall u | u != t :: HeldBy(s'.threads, u) == HeldBy(s.threads, u)
    requires s'.held == s.held - {c} && s'.others == s.others
    ensures RadosOk(s')
  {
  }

  lemma UnbookKeepsInv(s: State, e: Event)
    requires Inv(s) && Enabled(s, e) && e.Unbook?
    ensures Inv(Step(s, e))
    ensures var c := s.threads[e.t].c; c in s.cookies && (e.t, c.kind) in s.lockedBy
  {
    var s', c := Step(s, e), s.threads[e.t].c;
    assert BookedBy(s.threads, e.t) == Some(c) && BookedBy(s'.threads, e.t) == None;
    assert forall u | u != e.t :: BookedBy(s'.threads, u) == BookedBy(s.threads, u);
    assert forall u :: HeldBy(s'.threads, u) == HeldBy(s.threads, u);
    BookingRemoved(s, s', e.t, c);
  }

  lemma BookingRemoved(s: State, s': State, t: Tid, c: Cookie)
    requires BookingOk(s) && ExclusiveAlone(s) && c.thread == t
    requires BookedBy(s.threads, t) == Some(c) && BookedBy(s'.threads, t) == None
    requires forall u | u != t :: BookedBy(s'.threads, u) == BookedBy(s.threads, u)
    requires s'.cookies == s.cookies - multiset{c} && s'.lockedBy == Minus(s.lockedBy, (t, c.kind))
    requires s'.isExclusive == (s.isExclusive && c.kind.Shared?)
    ensures BookingOk(s') && ExclusiveAlone(s')
  {
    assert (t, c.kind) in s.lockedBy && s.cookies[c] == 1;
    if s.isExclusive {
      var u :| IsExclusiveBooking(s.threads, u);
      assert u == t;
    }
    forall u ensures !IsExclusiveBooking(s'.threads, u) {
      assert IsExclusiveBooking(s'.threads, u) ==> u != t && IsExclusiveBooking(s.threads, u);
    }
    forall d ensures s'.cookies[d] == if BookedBy(s'.threads, d.thread) == Some(d) then 1 else 0 {}
  }

  /** Every step of every thread, and of other processes, keeps the invariant. */
  lemma StepKeepsInv(s: State, e: Event)
    requires Inv(s) && Enabled(s, e)
    ensures Inv(Step(s, e))
  {
    match e
    case Acquire(_, _, _) => AcquireKeepsInv(s, e);
    case Book(_) => BookKeepsInv(s, e);
    case Release(_) => ReleaseKeepsInv(s, e);
    case Unbook(_) => UnbookKeepsInv(s, e);
    case OtherAcquires(_) =>
    case OtherReleases(_) =>
  }

  // ----- runs -----

  predicate IsRun(s: State, events: seq<Event>)
    decreases |events|
  {
    events == [] || (Enabled(s, events[0]) && IsRun(Step(s, events[0]), events[1..]))
  }

  function After(s: State, events: seq<Event>): State
    requires IsRun(s, events)
    decreases |events|
  {
    if events == [] then s else After(Step(s, events[0]), events[1..])
  }

  lemma {:induction false} RunKeepsInv(s: State, events: seq<Event>)
    requires Inv(s) && IsRun(s, events)
    ensures Inv(After(s, events))
    decreases |events|
  {
    if events != [] {
      StepKeepsInv(s, events[0]);
      RunKeepsInv(Step(s, events[0]), events[1..]);
    }
  }

  /** In every interleaving the two assertions before an exclusive booking hold, RADOS still holds the
      lock that is being released, and the bookings that are being removed are there. */
  lemma AssertionsNeverFire(s: State, events: seq<Event>, t: Tid)
    requires Init(s) && IsRun(s, events)
    ensures var u := After(s, events);
            && (Enabled(u, Book(t)) && u.threads[t].c.kind.Exclusive? ==>
                  !u.isExclusive && u.lockedBy == map[] && u.cookies == multiset{})
            && (Enabled(u, Release(t)) ==> u.threads[t].c in u.held)
            && (Enabled(u, Unbook(t)) ==> u.threads[t].c in u.cookies && (t, u.threads[t].c.kind) in u.lockedBy)
  {
    InitHolds(s);
    RunKeepsInv(s, events);
    var u := After(s, events);
    if Enabled(u, Book(t)) { BookKeepsInv(u, Book(t)); }
    if Enabled(u, Release(t)) { ReleaseKeepsInv(u, Release(t)); }
    if Enabled(u, Unbook(t)) { UnbookKeepsInv(u, Unbook(t)); }
  }

  /** The `locked_by` entry of a thread and kind, absent meaning zero. */
  function LockedCount(s: State, t: Tid, k: Kind): nat {
    if (t, k) in s.lockedBy then s.lockedBy[(t, k)] else 0
  }

  function CookiesOf(s: State, t: Tid, k: Kind): set<Cookie> {
    set c | c in s.cookies && c.thread == t && c.kind == k
  }

  lemma CountMatches(s: State, t: Tid, k: Kind)
    requires BookingOk(s) && WellNamed(s)
    ensures LockedCount(s, t, k) == |CookiesOf(s, t, k)|
  {
    var b, mine := BookedBy(s.threads, t), CookiesOf(s, t, k);
    forall c | c in mine ensures b == Some(c) { assert s.cookies[c] != 0; }
    if (t, k) in s.lockedBy {
      assert s.cookies[b.value] == 1;
      assert mine == {b.value};
    } else {
      assert forall c :: c !in mine;
      assert mine == {};
    }
  }

  lemma CookieIsHeld(s: State, c: Cookie)
    requires Inv(s) && c in s.cookies
    ensures s.cookies[c] == 1 && (c in s.held || s.changesLock == Some(c.thread))
  {
    assert s.cookies[c] != 0;
  }

  /** Booked cookies are held in RADOS, except the one whose release is in progress under `changes_lock`;
      each is booked once, and `locked_by` counts, for every thread and kind, the cookies it has booked. */
  lemma BookingsMatchRados(s: State, events: seq<Event>, c: Cookie, t: Tid, k: Kind)
    requires Init(s) && IsRun(s, events)
    ensures var u := After(s, events);
            && (c in u.cookies ==> u.cookies[c] == 1 && (c in u.held || u.changesLock == Some(c.thread)))
            && LockedCount(u, t, k) == |CookiesOf(u, t, k)|
  {
    InitHolds(s);
    RunKeepsInv(s, events);
    if c in After(s, events).cookies { CookieIsHeld(After(s, events), c); }
    CountMatches(After(s, events), t, k);
  }

  /** When it can be evaluated, `write_locked_by_me` is true exactly for the thread that has booked the
      exclusive lock, and at most one thread has. */
  lemma WriteLockedByMeIsExact(s: State, events: seq<Event>, t: Tid)
    requires Init(s) && IsRun(s, events) && After(s, events).changesLock == None
    ensures var u := After(s, events);
            WriteLockedByMe(u, t) <==> t in u.threads && u.threads[t].Booked? && u.threads[t].c.kind.Exclusive?
    ensures var u := After(s, events);
            forall x | WriteLockedByMe(u, t) && WriteLockedByMe(u, x) :: x == t
  {
    InitHolds(s);
    RunKeepsInv(s, events);
    var u := After(s, events);
    forall x ensures WriteLockedByMe(u, x) <==> IsExclusiveBooking(u.threads, x) {
      if WriteLockedByMe(u, x) {
        assert (x, Exclusive) in u.lockedBy;
      }
      if IsExclusiveBooking(u.threads, x) {
        assert u.cookies[Cookie(x, 0, Exclusive)] == 1;
        assert (x, Exclusive) in u.lockedBy;
      }
    }
  }

  // ----- when a lock can be had -----

  /** A thread that is outside can take the exclusive lock exactly when no thread of this process has any lock in
      RADOS and no other process has; and a shared lock exactly when none of them has an exclusive one. */
  lemma GrantedExactly(s: State, events: seq<Event>, t: Tid, n: nat)
    requires Init(s) && IsRun(s, events) && n > 0
    requires t in After(s, events).threads && After(s, events).threads[t].Outside?
    ensures var u := After(s, events);
            Enabled(u, Acquire(t, 0, Exclusive)) <==>
            && u.others == multiset{}
            && forall x | x in u.threads :: !u.threads[x].Acquired? && !u.threads[x].Booked?
    ensures var u := After(s, events);
            Enabled(u, Acquire(t, n, Shared)) <==>
            && u.others[Exclusive] == 0
            && forall x | x in u.threads && (u.threads[x].Acquired? || u.threads[x].Booked?) ::
                 u.threads[x].c.kind == Shared
  {
    InitHolds(s);
    RunKeepsInv(s, events);
    var u := After(s, events);
    forall x | x in u.threads && (u.threads[x].Acquired? || u.threads[x].Booked?)
      ensures u.threads[x].c in u.held
    { assert HeldBy(u.threads, x) == Some(u.threads[x].c); }
    forall c | c in u.held ensures c.thread in u.threads && HeldBy(u.threads, c.thread) == Some(c) {}
    if forall x | x in u.threads :: !u.threads[x].Acquired? && !u.threads[x].Booked? {
      forall c ensures c !in u.held {}
      assert u.held == {};
    }
  }

  lemma FirstAndRest(a: seq<Event>, b: seq<Event>)
    requires a != []
    ensures [a[0]] + (a[1..] + b) == a + b
  {
  }

  lemma SetTwice(threads: map<Tid, Pc>, t: Tid, x: Pc, y: Pc)
    ensures threads[t := x][t := y] == threads[t := y]
  {
  }

  lemma FirstStep(s: State, e: Event, rest: seq<Event>)
    requires Enabled(s, e) && IsRun(Step(s, e), rest)
    ensures IsRun(s, [e] + rest) && After(s, [e] + rest) == After(Step(s, e), rest)
  {
    assert ([e] + rest)[1..] == rest;
  }

  lemma {:induction false} RunOn(s: State, a: seq<Event>, b: seq<Event>)
    requires IsRun(s, a) && IsRun(After(s, a), b)
    ensures IsRun(s, a + b) && After(s, a + b) == After(After(s, a), b)
    decreases |a|
  {
    if a == [] {
      assert a + b == b;
    } else {
      var s1 := Step(s, a[0]);
      assert After(s, a) == After(s1, a[1..]);
      RunOn(s1, a[1..], b);
      FirstStep(s, a[0], a[1..] + b);
      FirstAndRest(a, b);
    }
  }

  /** How many steps a thread is away from having no lock. */
  function Away(pc: Pc): nat {
    match pc
    case Outside => 0
    case Releasing(_) => 1
    case Booked(_) => 2
    case Acquired(_) => 3
  }

  /** A step of a thread towards having no lock. */
  function NextOf(t: Tid, pc: Pc): Event
    requires !pc.Outside?
  {
    match pc
    case Acquired(_) => Book(t)
    case Booked(_) => Release(t)
    case Releasing(_) => Unbook(t)
  }

  /** While `changes_lock` is free or held by it, a thread can go on until it has no lock. */
  lemma {:induction false} ThreadCanLeave(s: State, t: Tid) returns (events: seq<Event>)
    requires Inv(s) && t in s.threads && (s.changesLock == None || s.changesLock == Some(t))
    ensures IsRun(s, events)
    ensures var u := After(s, events);
            Inv(u) && u.changesLock == None && u.threads == s.threads[t := Outside] && u.others == s.others
    decreases Away(s.threads[t])
  {
    if s.threads[t].Outside? {
      events := [];
      assert s.threads[t := Outside] == s.threads;
    } else {
      var e := NextOf(t, s.threads[t]);
      NextIsPossible(s, t);
      var s1 := Step(s, e);
      var more := ThreadCanLeave(s1, t);
      FirstStep(s, e, more);
      events := [e] + more;
      SetTwice(s.threads, t, s1.threads[t], Outside);
    }
  }

  lemma NextIsPossible(s: State, t: Tid)
    requires Inv(s) && t in s.threads && (s.changesLock == None || s.changesLock == Some(t)) && !s.threads[t].Outside?
    ensures var e := NextOf(t, s.threads[t]);
            && Enabled(s, e) && Inv(Step(s, e))
            && t in Step(s, e).threads && Step(s, e).threads == s.threads[t := Step(s, e).threads[t]]
            && Away(Step(s, e).threads[t]) < Away(s.threads[t]) && Step(s, e).others == s.others
            && (Step(s, e).changesLock == None || Step(s, e).changesLock == Some(t))
  {
    StepKeepsInv(s, NextOf(t, s.threads[t]));
  }

  lemma SomeThread(ts: set<Tid>)
    ensures ts == {} || exists t: Tid :: t in ts
  {
    assert (forall t :: t !in ts) ==> ts == {};
  }

  /** No thread holds or has booked a lock. */
  predicate AllOutside(s: State) {
    forall t | t in s.threads :: s.threads[t].Outside?
  }

  lemma {:induction false} ThreadsCanLeave(s: State, todo: set<Tid>) returns (events: seq<Event>)
    requires Inv(s) && s.changesLock == None && todo <= s.threads.Keys
    requires forall t | t in s.threads && t !in todo :: s.threads[t].Outside?
    ensures IsRun(s, events)
    ensures var u := After(s, events); Inv(u) && AllOutside(u) && u.changesLock == None && u.others == s.others
    decreases todo
  {
    events := [];
    if todo != {} {
      SomeThread(todo);
      var t: Tid :| t in todo;
      events := ThreadCanLeave(s, t);
      var more := ThreadsCanLeave(After(s, events), todo - {t});
      RunOn(s, events, more);
      events := events + more;
    }
  }

  /** From every state of every run all threads can give up their locks, by steps of their own; then nothing is held
      or booked, and the exclusive lock can be had again unless another process has one. */
  lemma AllCanBeReleased(s: State, events: seq<Event>) returns (more: seq<Event>)
    requires Init(s) && IsRun(s, events)
    ensures IsRun(s, events + more)
    ensures var u, v := After(s, events), After(s, events + more);
            && AllOutside(v) && v.threads.Keys == u.threads.Keys && v.others == u.others
            && v.held == {} && v.lockedBy == map[] && v.cookies == multiset{} && !v.isExclusive && v.changesLock == None
  {
    InitHolds(s);
    RunKeepsInv(s, events);
    var u := After(s, events);
    more := [];
    if u.changesLock.Some? {
      var t := u.changesLock.value;
      HolderIsThread(s, events);
      more := ThreadCanLeave(u, t);
    }
    var w := After(u, more);
    var rest := ThreadsCanLeave(w, w.threads.Keys);
    RunOn(u, more, rest);
    more := more + rest;
    RunOn(s, events, more);
    NothingLeft(After(u, more));
    ThreadsStay(u, more);
  }

  lemma {:induction false} OthersCanLeave(s: State) returns (events: seq<Event>)
    ensures IsRun(s, events) && After(s, events) == s.(others := multiset{})
    decreases |s.others|
  {
    events := [];
    if s.others != multiset{} {
      var kind :| kind in s.others;
      var more := OthersCanLeave(Step(s, OtherReleases(kind)));
      FirstStep(s, OtherReleases(kind), more);
      events := [OtherReleases(kind)] + more;
    }
  }

  /** So the exclusive lock can always be had in the end: when the threads and the other processes have given up
      theirs. */
  lemma LockCanBeHad(s: State, events: seq<Event>, t: Tid) returns (more: seq<Event>)
    requires Init(s) && IsRun(s, events) && t in After(s, events).threads
    ensures IsRun(s, events + more) && Enabled(After(s, events + more), Acquire(t, 0, Exclusive))
  {
    var first := AllCanBeReleased(s, events);
    var u := After(s, events + first);
    assert t in u.threads.Keys;
    var rest := OthersCanLeave(u);
    RunOn(s, events + first, rest);
    assert (events + first) + rest == events + (first + rest);
    more := first + rest;
  }

  lemma NothingLeft(v: State)
    requires Inv(v) && AllOutside(v) && v.changesLock == None
    ensures v.held == {} && v.lockedBy == map[] && v.cookies == multiset{} && !v.isExclusive
  {
    forall c ensures c !in v.held {}
    NothingBooked(v);
  }

  lemma {:induction false} ThreadsStay(s: State, events: seq<Event>)
    requires IsRun(s, events)
    ensures After(s, events).threads.Keys == s.threads.Keys
    decreases |events|
  {
    if events != [] { ThreadsStay(Step(s, events[0]), events[1..]); }
  }

  /** The holder of `changes_lock` is one of the threads. */
  lemma {:induction false} HolderIsThread(s: State, events: seq<Event>)
    requires (s.changesLock.Some? ==> s.changesLock.value in s.threads) && IsRun(s, events)
    ensures var u := After(s, events); u.changesLock.Some? ==> u.changesLock.value in u.threads
    decreases |events|
  {
    if events != [] { HolderIsThread(Step(s, events[0]), events[1..]); }
  }
}
