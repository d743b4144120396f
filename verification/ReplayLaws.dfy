/** What a single request and a single difference come to, said of the stored fields themselves: the facts that the
    replay of a whole update is built on. */
module ReplayLaws {
  import opened Text
  import opened StateKeys
  import opened StateOps
  import opened Replay

  // ----- when an add request is taken -----

  /** On a target where the subsystem is and the host is not, a host is refused only for having no key when the
      subsystem has one. A host with a key is welcome on a subsystem without. */
  lemma HostTakenExactly(t: State, b: set<string>, q: string, h: string, key: string, rest: string)
    requires Subsystem(q) in t && t[Subsystem(q)].SubsysVal? && Host(q, h) !in t && h != "*"
    ensures Accepts(t, b, Host(q, h), HostVal(key, rest)) <==> key != "" || t[Subsystem(q)].dhchap == ""
  {
  }

  /** The entry for all hosts goes without a key, and not onto a subsystem with one or with a secure listener. */
  lemma AnyHostTakenExactly(t: State, b: set<string>, q: string, key: string, rest: string)
    requires Subsystem(q) in t && t[Subsystem(q)].SubsysVal? && Host(q, "*") !in t
    ensures Accepts(t, b, Host(q, "*"), HostVal(key, rest)) <==>
            && key == "" && t[Subsystem(q)].dhchap == ""
            && forall k | k in t && k.Listener? && k.nqn == q && t[k].ListenerVal? :: !t[k].secure
  {
    if HasSecureListener(t, q) {
      var k :| k in t && k.Listener? && k.nqn == q && IsSecure(t[k]);
    } else {
      forall k | k in t && k.Listener? && k.nqn == q && t[k].ListenerVal? ensures !t[k].secure {
        assert !IsSecure(t[k]);
      }
    }
  }

  /** A subsystem is taken when neither it nor another one with its serial number is there. */
  lemma SubsystemTakenExactly(t: State, b: set<string>, q: string, v: Val)
    requires v.SubsysVal? && TargetOk(t)
    ensures Accepts(t, b, Subsystem(q), v) <==>
            Subsystem(q) !in t && forall k | k in t && k.Subsystem? :: t[k].serial != v.serial
  {
    forall k | k in t && k.Subsystem? ensures t[k].SubsysVal? { assert Fits(k, t[k]); }
    if Subsystem(q) !in t {
      forall k | k in t ensures ClashesAt(t, Subsystem(q), v, k) <==> k.Subsystem? && t[k].serial == v.serial {}
    }
  }

  /** A namespace is taken when its subsystem is there, it is not, and no block device has its UUID, used or not. */
  lemma NamespaceTakenExactly(t: State, b: set<string>, q: string, i: nat, v: Val)
    requires v.NsVal? && TargetOk(t)
    ensures Accepts(t, b, Namespace(q, i), v) <==>
            && Subsystem(q) in t && Namespace(q, i) !in t && v.uuid !in b
            && forall k | k in t && k.Namespace? :: t[k].uuid != v.uuid
  {
    forall k | k in t && k.Namespace? ensures t[k].NsVal? { assert Fits(k, t[k]); }
    if Namespace(q, i) !in t {
      forall k | k in t ensures ClashesAt(t, Namespace(q, i), v, k) <==> k.Namespace? && t[k].uuid == v.uuid {}
    }
  }

  /** QoS limits need their namespace and nothing else. */
  lemma LimitsTakenExactly(t: State, b: set<string>, q: string, i: nat, v: Val)
    ensures Accepts(t, b, Qos(q, i), v) <==> Namespace(q, i) in t
  {
  }

  /** A host of a namespace is taken when the namespace is there and not visible to all hosts, the host is not there
      yet, and it may access the subsystem, by itself or as any host, or the request forces it. */
  lemma NsHostTakenExactly(t: State, b: set<string>, q: string, i: nat, h: string, force: bool, rest: string)
    requires TargetOk(t)
    ensures Accepts(t, b, NsHost(q, i, h), NsHostVal(force, rest)) <==>
            && Namespace(q, i) in t && t[Namespace(q, i)].hidden && NsHost(q, i, h) !in t
            && (Host(q, h) in t || Host(q, "*") in t || force)
  {
    if Namespace(q, i) in t { assert Fits(Namespace(q, i), t[Namespace(q, i)]); }
  }

  /** A listener is taken when it is the gateway's own, its subsystem is there, it is not, and it is not secure beside
      the entry for all hosts. */
  lemma ListenerTakenExactly(t: State, b: set<string>, k: Key, secure: bool, rest: string)
    requires k.Listener?
    ensures Accepts(t, b, k, ListenerVal(secure, rest)) <==>
            Subsystem(k.nqn) in t && k !in t && k.gateway == HOST_NAME && !(secure && Host(k.nqn, "*") in t)
  {
  }

  /** What a taken request leaves: the object as requested, but that only an image the gateway created is marked for
      the trash, and that QoS limits that the request does not name stay as they are; zero means no limit. */
  lemma WhatIsPlaced(t: State, k: Key, v: Val)
    requires Fits(k, v) && (k in t ==> Fits(k, t[k]))
    ensures !k.Namespace? && !k.Qos? ==> Placed(t, k, v) == v
    ensures k.Namespace? ==>
              var w := Placed(t, k, v);
              && w.NsVal? && w.trash == (v.trash && v.create)
              && (w.grp, w.hidden, w.create, w.uuid, w.rest) == (v.grp, v.hidden, v.create, v.uuid, v.rest)
    ensures k.Qos? ==>
              var w, none := Placed(t, k, v), Limits(None, None, None, None);
              var before := if k in t then t[k].limits else none;
              && w.QosVal? && w.rest == v.rest
              && w.limits.rwIos == (match v.limits.rwIos case None => before.rwIos
                                    case Some(n) => if n == 0 then None else Some(n))
              && w.limits.rwMbytes == (match v.limits.rwMbytes case None => before.rwMbytes
                                       case Some(n) => if n == 0 then None else Some(n))
              && w.limits.rMbytes == (match v.limits.rMbytes case None => before.rMbytes
                                      case Some(n) => if n == 0 then None else Some(n))
              && w.limits.wMbytes == (match v.limits.wMbytes case None => before.wMbytes
                                      case Some(n) => if n == 0 then None else Some(n))
  {
  }

  // ----- what a removal and a change do -----

  /** What one removal request takes from a target. Removing QoS limits does nothing. */
  lemma WhatIsRemoved(t: State, k: Key, v: Val, x: Key)
    requires TargetOk(t) && Persisted(k)
    ensures x in Without(t, map[k := v]) ==> Without(t, map[k := v])[x] == t[x]
    ensures x in Without(t, map[k := v]) <==>
            x in t &&
            match k
            case Subsystem(q) => x.nqn != q
            case Namespace(q, i) =>
              x != k && !(x.Qos? && x.nqn == q && x.nsid == i) && !(x.NsHost? && x.nqn == q && x.nsid == i)
            case Qos(_, _) => true
            case _ => x != k
  {
    if x in t { assert Persisted(x); }
  }

  /** What one request for a change in place does to an object: a load balancing group, a visibility, a trash flag, a
      host's key unless that is refused, a subsystem's key. Nothing else changes, but that a namespace that becomes
      visible to all loses its hosts. */
  lemma WhatIsChanged(t: State, b: set<string>, k: Key, v: Val, x: Key)
    requires TargetOk(t) && FamilyOf(k).Some? && !Persisted(k) && Fits(k, v)
    ensures var t' := With(t, b, FamilyOf(k).value, map[k := v]);
            && (x in t' <==> x in t && !(k.Visibility? && v.visible && x.NsHost? && x.nqn == k.nqn && x.nsid == k.nsid))
            && (x in t' ==>
                  t'[x] == match (k, t[x])
                           case (LbGroup(q, i), NsVal(_, _, _, _, _, _)) =>
                             if x == Namespace(q, i) then t[x].(grp := v.grp) else t[x]
                           case (Visibility(q, i), NsVal(_, _, _, _, _, _)) =>
                             if x == Namespace(q, i) then t[x].(hidden := !v.visible) else t[x]
                           case (TrashImage(q, i), NsVal(_, _, _, _, _, _)) =>
                             if x == Namespace(q, i) then t[x].(trash := v.trash) else t[x]
                           case (HostSecret(q, h), HostVal(_, rest)) =>
                             if x == Host(q, h) && h != "*" && !(v.dhchap == "" && SubsystemHasKey(t, q))
                             then HostVal(v.dhchap, rest) else t[x]
                           case (SubsystemSecret(q), SubsysVal(_, serial, rest)) =>
                             if x == Subsystem(q) then SubsysVal(v.dhchap, serial, rest) else t[x]
                           case _ => t[x])
  {
    if x in t { assert Fits(x, t[x]); }
  }

  /** The subsystem has a DH-HMAC-CHAP key. */
  predicate SubsystemHasKey(t: State, q: string) {
    exists k :: k in t && k == Subsystem(q) && t[k].SubsysVal? && t[k].dhchap != ""
  }

  // ----- what a state describes and what a difference sends -----

  /** The target a state describes: everything stored but hosts of namespaces that are visible to all and listeners of
      other gateways, as a request for it would leave it. */
  lemma WhatIsInstalled(s: State, k: Key)
    requires WfState(s)
    ensures k in Installed(s) <==>
            && k in s && k != Version
            && !(k.NsHost? && !s[Namespace(k.nqn, k.nsid)].hidden) && !(k.Listener? && k.gateway != HOST_NAME)
    ensures k in Installed(s) ==> Installed(s)[k] == Placed(map[], k, s[k])
  {
    if k in s {
      assert WfEntry(s, k);
      if k.NsHost? {
        assert Parent(k).value in s;
        assert WfEntry(s, Parent(k).value);
      }
    }
  }

  /** The two values differ in a field that cannot change in place: for a namespace in anything but group, visibility
      and trash flag, for a host or a subsystem in anything but the key, for other objects in anything. */
  predicate DiffersForGood(k: Key, v: Val, w: Val) {
    match (k, v, w)
    case (Namespace(_, _), NsVal(_, _, _, create, uuid, rest), NsVal(_, _, _, create', uuid', rest')) =>
      (create, uuid, rest) != (create', uuid', rest')
    case (Host(_, _), HostVal(_, rest), HostVal(_, rest')) => rest != rest'
    case (Subsystem(_), SubsysVal(_, serial, rest), SubsysVal(_, serial', rest')) => (serial, rest) != (serial', rest')
    case _ => v != w
  }

  /** Which keys an update removes, and which it adds. Keys that differ for good are removed and added; and when there
      are such keys in a family, the family's other removed and new keys are forgotten. */
  lemma WhatIsSent(l: State, n: State, k: Key)
    requires WfState(l) && WfState(n)
    ensures var again := k in l && k in n && DiffersForGood(k, l[k], n[k]);
            var forgotten := exists x :: x in l && x in n && FamilyOf(x) == FamilyOf(k)
                                         && DiffersForGood(x, l[x], n[x]);
            && (SentOut(l, n, k) <==> k != Version && (again || (k in l && k !in n && !forgotten)))
            && (SentIn(l, n, k) <==> k != Version && (again || (k in n && k !in l && !forgotten)))
  {
    forall x | x in l && x in n ensures ReAdded(l, n, x) <==> DiffersForGood(x, l[x], n[x]) {
      assert WfEntry(l, x) && WfEntry(n, x);
    }
    if k in l { assert WfEntry(l, k); }
    if k in n { assert WfEntry(n, k); }
  }

  /** Which changes in place an update asks for. */
  lemma WhatIsAskedFor(l: State, n: State, q: string, i: nat, h: string)
    requires WfState(l) && WfState(n)
    ensures var k := Namespace(q, i); var same := k in l && k in n && !DiffersForGood(k, l[k], n[k]);
            && (LbGroup(q, i) in InGroup(l, n, LbGroupF) <==> same && l[k].grp != n[k].grp)
            && (Visibility(q, i) in InGroup(l, n, VisibilityF) <==> same && l[k].hidden != n[k].hidden)
            && (TrashImage(q, i) in InGroup(l, n, TrashImageF) <==> same && l[k].trash != n[k].trash)
    ensures var k := Host(q, h); var same := k in l && k in n && !DiffersForGood(k, l[k], n[k]);
            HostSecret(q, h) in InGroup(l, n, HostSecretF) <==> same && l[k].dhchap != n[k].dhchap && h != "*"
    ensures var k := Subsystem(q); var same := k in l && k in n && !DiffersForGood(k, l[k], n[k]);
            SubsystemSecret(q) in InGroup(l, n, SubsystemSecretF) <==> same && l[k].dhchap != n[k].dhchap
  {
    NamespaceAskedFor(l, n, q, i);
    HostAskedFor(l, n, q, h);
    SubsystemAskedFor(l, n, q);
  }

  lemma NamespaceAskedFor(l: State, n: State, q: string, i: nat)
    requires WfState(l) && WfState(n)
    ensures var k := Namespace(q, i); var same := k in l && k in n && !DiffersForGood(k, l[k], n[k]);
            && (LbGroup(q, i) in InGroup(l, n, LbGroupF) <==> same && l[k].grp != n[k].grp)
            && (Visibility(q, i) in InGroup(l, n, VisibilityF) <==> same && l[k].hidden != n[k].hidden)
            && (TrashImage(q, i) in InGroup(l, n, TrashImageF) <==> same && l[k].trash != n[k].trash)
  {
    var k := Namespace(q, i);
    AskedIfListed(l, n, LbGroupF, k, LbGroup(q, i));
    AskedIfListed(l, n, VisibilityF, k, Visibility(q, i));
    AskedIfListed(l, n, TrashImageF, k, TrashImage(q, i));
    ListedForNs(l, n, k);
  }

  lemma AskedIfListed(l: State, n: State, f: Family, k: Key, s: Key)
    requires InPlaceFamily(f) && MadeKey(f, k) == Some(s)
    ensures s in InGroup(l, n, f) <==> Listed(l, n, f, k).Some?
  {
    MadeUpGroup(l, n, f, s);
  }

  lemma ListedForNs(l: State, n: State, k: Key)
    requires WfState(l) && WfState(n) && k.Namespace?
    ensures var same := k in l && k in n && !DiffersForGood(k, l[k], n[k]);
            && (Listed(l, n, LbGroupF, k).Some? <==> same && l[k].grp != n[k].grp)
            && (Listed(l, n, VisibilityF, k).Some? <==> same && l[k].hidden != n[k].hidden)
            && (Listed(l, n, TrashImageF, k).Some? <==> same && l[k].trash != n[k].trash)
  {
    if k in l && k in n { assert WfEntry(l, k) && WfEntry(n, k); }
  }

  lemma HostAskedFor(l: State, n: State, q: string, h: string)
    requires WfState(l) && WfState(n)
    ensures var k := Host(q, h); var same := k in l && k in n && !DiffersForGood(k, l[k], n[k]);
            HostSecret(q, h) in InGroup(l, n, HostSecretF) <==> same && l[k].dhchap != n[k].dhchap && h != "*"
  {
    var k := Host(q, h);
    MadeUpGroup(l, n, HostSecretF, HostSecret(q, h));
    if k in l && k in n { assert WfEntry(l, k) && WfEntry(n, k); }
  }

  lemma SubsystemAskedFor(l: State, n: State, q: string)
    requires WfState(l) && WfState(n)
    ensures var k := Subsystem(q); var same := k in l && k in n && !DiffersForGood(k, l[k], n[k]);
            SubsystemSecret(q) in InGroup(l, n, SubsystemSecretF) <==> same && l[k].dhchap != n[k].dhchap
  {
    var k := Subsystem(q);
    MadeUpGroup(l, n, SubsystemSecretF, SubsystemSecret(q));
    if k in l && k in n { assert WfEntry(l, k) && WfEntry(n, k); }
  }

  // ----- a new gateway -----

  /** A new gateway gets the shared state exactly if, in the stored values, every host has a key where its subsystem
      has one, the entry for all hosts has none and its subsystem has neither a key nor a secure listener here, every
      host of a hidden namespace may access the subsystem or is forced, and no two subsystems have one serial number
      and no two namespaces one UUID. */
  lemma NewGatewayExactly(n: State)
    requires WfState(n)
    ensures Replayed(map[], {}, map[], n) == Installed(n) <==>
            && (forall q, h | Host(q, h) in n ::
                  if h == "*" then n[Host(q, h)].dhchap == "" && n[Subsystem(q)].dhchap == ""
                  else n[Host(q, h)].dhchap != "" || n[Subsystem(q)].dhchap == "")
            && (forall k | k in n && k.Listener? && k.gateway == HOST_NAME && n[k].secure :: Host(k.nqn, "*") !in n)
            && (forall q, i, h | NsHost(q, i, h) in n && n[Namespace(q, i)].hidden ::
                  Host(q, h) in n || Host(q, "*") in n || n[NsHost(q, i, h)].force)
            && (forall k, x | k in n && x in n && k.Subsystem? && x.Subsystem? && k != x :: n[k].serial != n[x].serial)
            && (forall k, x | k in n && x in n && k.Namespace? && x.Namespace? && k != x :: n[k].uuid != n[x].uuid)
  {
    NewGatewayConverges(n);
    HostsFit(n);
    ListenersFit(n);
    NsHostsFit(n);
    NamesDiffer(n);
  }

  lemma HostsFit(n: State)
    requires WfState(n)
    ensures (forall q, h | Host(q, h) in n ::
               if h == "*" then n[Host(q, h)].dhchap == "" && n[Subsystem(q)].dhchap == ""
               else n[Host(q, h)].dhchap != "" || n[Subsystem(q)].dhchap == "") <==>
            forall k | k in n && k.Host? :: n[k].HostVal? && KeyFits(KeyOf(n, k.nqn), k.host, n[k].dhchap)
  {
    forall q, h | Host(q, h) in n
      ensures n[Host(q, h)].HostVal? && Subsystem(q) in n && n[Subsystem(q)].SubsysVal?
    {
      assert WfEntry(n, Host(q, h)) && Parent(Host(q, h)).value in n;
      assert WfEntry(n, Subsystem(q));
    }
    forall k | k in n && k.Host? ensures k == Host(k.nqn, k.host) {}
  }

  lemma ListenersFit(n: State)
    requires WfState(n)
    ensures (forall k | k in n && k.Listener? && k.gateway == HOST_NAME && n[k].secure :: Host(k.nqn, "*") !in n) <==>
            forall k | Live(n, k) && k.Listener? && IsSecure(n[k]) :: Host(k.nqn, ANY_HOST) !in n
  {
    forall k | k in n && k.Listener? ensures n[k].ListenerVal? && (Live(n, k) <==> k.gateway == HOST_NAME) {
      assert WfEntry(n, k);
    }
  }

  lemma NsHostsFit(n: State)
    requires WfState(n)
    ensures (forall q, i, h | NsHost(q, i, h) in n && n[Namespace(q, i)].hidden ::
               Host(q, h) in n || Host(q, "*") in n || n[NsHost(q, i, h)].force) <==>
            forall k | Live(n, k) && k.NsHost? :: HostAllowed(n, k.nqn, k.host, n[k])
  {
    forall q, i, h | NsHost(q, i, h) in n
      ensures n[NsHost(q, i, h)].NsHostVal? && Namespace(q, i) in n && n[Namespace(q, i)].NsVal?
      ensures Live(n, NsHost(q, i, h)) <==> n[Namespace(q, i)].hidden
    {
      assert WfEntry(n, NsHost(q, i, h)) && Parent(NsHost(q, i, h)).value in n;
      assert WfEntry(n, Namespace(q, i));
    }
    forall k | k in n && k.NsHost? ensures k == NsHost(k.nqn, k.nsid, k.host) {}
  }

  lemma NamesDiffer(n: State)
    requires WfState(n)
    ensures (forall k, x | k in n && x in n && k.Subsystem? && x.Subsystem? && k != x :: n[k].serial != n[x].serial)
            && (forall k, x | k in n && x in n && k.Namespace? && x.Namespace? && k != x :: n[k].uuid != n[x].uuid) <==>
            forall k, x | k in n && Persisted(k) && x in n :: !Clashes(k, n[k], x, n[x])
  {
    forall k | k in n ensures (k.Subsystem? ==> n[k].SubsysVal?) && (k.Namespace? ==> n[k].NsVal?) {
      assert WfEntry(n, k);
    }
  }
}
