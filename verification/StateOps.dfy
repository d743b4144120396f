/** The operations of the persisted state: what one `GatewayStateHandler` call does to the shared OMAP
    copy and to the gateway's own copy, on structured keys and on the stored strings. */
module StateOps {
  import opened Text
  import opened StateKeys

  datatype Op =
    | Set(k: Key, v: string)            // add_*
    | Drop(k: Key)                      // remove_namespace_qos, remove_namespace_host
    | DropIfPresent(k: Key)             // remove_host, remove_listener
    | DropSubsystem(nqn: string)        // remove_subsystem
    | DropNamespace(nqn: string, nsid: nat)  // remove_namespace

  function HeadKey(op: Op): Key {
    match op
    case Set(k, _) => k
    case Drop(k) => k
    case DropIfPresent(k) => k
    case DropSubsystem(nqn) => Subsystem(nqn)
    case DropNamespace(nqn, nsid) => Namespace(nqn, nsid)
  }

  // ----- on structured keys -----

  /** The keys a removal erases besides its head key. */
  predicate Cascades(op: Op, k: Key) {
    match op
    case DropSubsystem(nqn) => Persisted(k) && !k.Subsystem? && k.nqn == nqn
    case DropNamespace(nqn, nsid) =>
      (k.Qos? && k.nqn == nqn && ExtendsDecimal(nsid, k.nsid)) || (k.NsHost? && k.nqn == nqn && k.nsid == nsid)
    case _ => false
  }

  function CascadeKeys(op: Op, m: map<Key, string>): set<Key> {
    set k | k in m && Cascades(op, k)
  }

  function HeadApplied(op: Op, m: map<Key, string>): map<Key, string> {
    if op.Set? then m[op.k := op.v] else m - {HeadKey(op)}
  }

  /** The OMAP half of a call: the head write, then one removal per cascading key. */
  function OmapHalf(op: Op, m: map<Key, string>): map<Key, string> {
    HeadApplied(op, m) - CascadeKeys(op, HeadApplied(op, m))
  }

  /** The unguarded removals pop the head key from the local dictionary and raise when it is missing. */
  predicate LocalRaises(op: Op, m: map<Key, string>) {
    (op.Drop? || op.DropSubsystem? || op.DropNamespace?) && HeadKey(op) !in m
  }

  /** The local half: the same steps, abandoned when the head key is missing. */
  function LocalHalf(op: Op, m: map<Key, string>): map<Key, string> {
    if LocalRaises(op, m) then m else OmapHalf(op, m)
  }

  /** The head key is stored, if the operation needs it, or nothing depends on it. */
  predicate Agreeing(op: Op, m: map<Key, string>) {
    !LocalRaises(op, m) || CascadeKeys(op, m) == {}
  }

  /** Both halves do the same to equal copies if and only if the head key is stored or nothing depends
      on it; otherwise the OMAP loses the dependants and the gateway's copy keeps them. */
  lemma HalvesAgree(op: Op, m: map<Key, string>)
    ensures LocalHalf(op, m) == OmapHalf(op, m) <==> Agreeing(op, m)
  {
    if LocalRaises(op, m) {
      assert HeadApplied(op, m) == m;
      if CascadeKeys(op, m) != {} {
        var k :| k in CascadeKeys(op, m);
        assert k !in OmapHalf(op, m);
      }
    }
  }

  /** A concrete pair of copies that drift apart: a leftover host of a subsystem that is not stored. */
  lemma HalvesCanDisagree()
    ensures var m := map[Host("n", "h") := ""];
            LocalHalf(DropSubsystem("n"), m) == m && OmapHalf(DropSubsystem("n"), m) == map[]
  {
    var m := map[Host("n", "h") := ""];
    assert CascadeKeys(DropSubsystem("n"), m) == {Host("n", "h")};
  }

  /** What each operation leaves at a key, and when the local half raises. */
  lemma WhatRemains(op: Op, m: map<Key, string>, k: Key)
    ensures match op
            case Set(x, v) => k in OmapHalf(op, m) <==> k == x || k in m
            case Drop(x) => k in OmapHalf(op, m) <==> k in m && k != x
            case DropIfPresent(x) => k in OmapHalf(op, m) <==> k in m && k != x
            case DropSubsystem(q) =>
              k in OmapHalf(op, m) <==>
              k in m && !((k.Subsystem? || k.Host? || k.Namespace? || k.Qos? || k.NsHost? || k.Listener?) && k.nqn == q)
            case DropNamespace(q, i) =>
              k in OmapHalf(op, m) <==>
              && k in m && k != Namespace(q, i) && !(k.NsHost? && k.nqn == q && k.nsid == i)
              && !(k.Qos? && k.nqn == q && Decimal(i) <= Decimal(k.nsid))
    ensures k in OmapHalf(op, m) ==> OmapHalf(op, m)[k] == if op.Set? && k == op.k then op.v else m[k]
    ensures var raises := match op
                          case Set(_, _) => false
                          case Drop(x) => x !in m
                          case DropIfPresent(_) => false
                          case DropSubsystem(q) => Subsystem(q) !in m
                          case DropNamespace(q, i) => Namespace(q, i) !in m;
            (LocalRaises(op, m) <==> raises) && LocalHalf(op, m) == if raises then m else OmapHalf(op, m)
  {
    if op.DropNamespace? && k.Qos? { DecimalPrefix(op.nsid, k.nsid); }
    HalfAt(op, m, k);
  }

  // ----- parents -----

  function Parent(k: Key): Option<Key> {
    match k
    case Host(nqn, _) => Some(Subsystem(nqn))
    case Namespace(nqn, _) => Some(Subsystem(nqn))
    case Listener(nqn, _, _, _, _) => Some(Subsystem(nqn))
    case Qos(nqn, nsid) => Some(Namespace(nqn, nsid))
    case NsHost(nqn, nsid, _) => Some(Namespace(nqn, nsid))
    case _ => None
  }

  /** Every stored key is of a persisted family and its parent is stored. */
  predicate Closed(keys: set<Key>) {
    forall k | k in keys :: Persisted(k) && (Parent(k).Some? ==> Parent(k).value in keys)
  }

  /** The operations the handlers make: only stored families are added, and the single-key removals name
      keys without dependants. */
  predicate Offered(op: Op) {
    match op
    case Set(k, _) => Persisted(k)
    case Drop(k) => k.Qos? || k.NsHost?
    case DropIfPresent(k) => k.Host? || k.Listener?
    case _ => true
  }

  /** An operation that fits the stored state: an added object's parent is stored, and so is a namespace to
      delete. The handlers check this on the gateway's own target, which can differ from the shared state. */
  predicate Allowed(op: Op, m: map<Key, string>) {
    Offered(op) &&
    match op
    case Set(k, _) => Parent(k).Some? ==> Parent(k).value in m
    case DropNamespace(nqn, nsid) => Namespace(nqn, nsid) in m
    case _ => true
  }

  /** Grandparents: what hangs below a namespace also hangs below its subsystem. */
  lemma ClosedTwice(keys: set<Key>, k: Key)
    requires Closed(keys) && k in keys && !k.Subsystem?
    ensures Subsystem(k.nqn) in keys
  {
    var p := Parent(k).value;
    if p.Namespace? {
      assert Parent(p) == Some(Subsystem(k.nqn));
    }
  }

  /** A whole operation that fits a closed state keeps it closed, and its two halves agree. */
  lemma OpKeepsClosed(op: Op, m: map<Key, string>)
    requires Closed(m.Keys) && Allowed(op, m)
    ensures Closed(OmapHalf(op, m).Keys)
    ensures Agreeing(op, m) && LocalHalf(op, m) == OmapHalf(op, m)
  {
    var r := OmapHalf(op, m);
    forall k | k in r.Keys
      ensures Persisted(k) && (Parent(k).Some? ==> Parent(k).value in r.Keys)
    {
      if op.DropSubsystem? && k in m && !k.Subsystem? { ClosedTwice(m.Keys, k); }
    }
    HalvesAgree(op, m);
    if LocalRaises(op, m) && op.DropSubsystem? {
      forall k | k in m && !k.Subsystem? ensures !Cascades(op, k) {
        ClosedTwice(m.Keys, k);
      }
    }
  }

  /** When namespace 1 is not stored, dropping it still costs the OMAP the QoS settings of namespace 10, while
      the gateway's copy keeps them. The handler's existence check does not prevent it: it looks at the
      gateway's own target, where namespace 1 may still be. */
  lemma MissingNamespaceDiverges(nqn: string)
    ensures var m := map[Subsystem(nqn) := "", Namespace(nqn, 10) := "", Qos(nqn, 10) := ""];
            Closed(m.Keys) && LocalHalf(DropNamespace(nqn, 1), m) != OmapHalf(DropNamespace(nqn, 1), m)
  {
    var m := map[Subsystem(nqn) := "", Namespace(nqn, 10) := "", Qos(nqn, 10) := ""];
    assert ExtendsDecimal(1, 10);
    assert Qos(nqn, 10) in m && Cascades(DropNamespace(nqn, 1), Qos(nqn, 10));
    assert Qos(nqn, 10) !in OmapHalf(DropNamespace(nqn, 1), m);
  }

  // ----- on the stored strings -----

  /** Which stored strings the removal loops of an operation erase. */
  predicate CascadesText(op: Op, key: string) {
    match op
    case DropSubsystem(nqn) => SubsystemCascade(nqn, key)
    case DropNamespace(nqn, nsid) => NamespaceCascade(nqn, nsid, key)
    case DropIfPresent(Host(nqn, host)) => StartsWith(key, BuildNqnHostKey(HostSecretF, nqn, Some(host)))
    case _ => false
  }

  function CascadeTexts(op: Op, s: map<string, string>): set<string> {
    set t | t in s && CascadesText(op, t)
  }

  function OmapHalfText(op: Op, s: map<string, string>): map<string, string> {
    var h := if op.Set? then s[TextOf(op.k) := op.v] else s - {TextOf(HeadKey(op))};
    h - CascadeTexts(op, h)
  }

  predicate LocalRaisesText(op: Op, s: map<string, string>) {
    (op.Drop? || op.DropSubsystem? || op.DropNamespace?) && TextOf(HeadKey(op)) !in s
  }

  function LocalHalfText(op: Op, s: map<string, string>): map<string, string> {
    if LocalRaisesText(op, s) then s else OmapHalfText(op, s)
  }

  predicate AgreeingText(op: Op, s: map<string, string>) {
    !LocalRaisesText(op, s) || CascadeTexts(op, s) == {}
  }

  lemma HalvesAgreeText(op: Op, s: map<string, string>)
    ensures LocalHalfText(op, s) == OmapHalfText(op, s) <==> AgreeingText(op, s)
  {
    if LocalRaisesText(op, s) {
      assert s - {TextOf(HeadKey(op))} == s;
      if CascadeTexts(op, s) != {} {
        var t :| t in CascadeTexts(op, s);
        assert t !in OmapHalfText(op, s);
      }
    }
  }

  /** What each operation leaves of the stored strings. */
  lemma WhatRemainsOfTexts(op: Op, s: map<string, string>, t: string)
    ensures t in OmapHalfText(op, s) ==> OmapHalfText(op, s)[t] == if op.Set? && t == TextOf(op.k) then op.v else s[t]
    ensures match op
            case Set(x, v) => t in OmapHalfText(op, s) <==> t == TextOf(x) || t in s
            case Drop(x) => t in OmapHalfText(op, s) <==> t in s && t != TextOf(x)
            case DropIfPresent(Host(q, h)) =>
              t in OmapHalfText(op, s) <==>
              t in s && t != "host_" + q + "_" + h && !("key-host_" + q + "_" + h <= t)
            case DropIfPresent(x) => t in OmapHalfText(op, s) <==> t in s && t != TextOf(x)
            case DropSubsystem(q) =>
              t in OmapHalfText(op, s) <==>
              && t in s && t != "subsystem_" + q && !("namespace_" + q + "_" <= t) && !("qos_" + q + "_" <= t)
              && !("ns-host_" + q + "_" <= t) && !("host_" + q + "_" <= t) && !("key-host_" + q + "_" <= t)
              && !("key-subsystem_" + q <= t) && !("listener_" + q + "_" <= t)
            case DropNamespace(q, i) =>
              t in OmapHalfText(op, s) <==>
              && t in s && t != "namespace_" + q + "_" + Decimal(i) && !("qos_" + q + "_" + Decimal(i) <= t)
              && !("ns-host_" + q + "_" + Decimal(i) + "_" <= t)
  {
    HalfTextAt(op, s, t);
    FamilyTexts();
  }

  /** Keys as the handlers build them: delimiter-free elements and a transport type. */
  predicate Stored(k: Key) {
    Wf(k) && Persisted(k) && (k.Listener? ==> k.trtype != "")
  }

  predicate WfOp(op: Op) {
    Stored(HeadKey(op))
  }

  /** `s` is the string form of `m`. */
  ghost predicate Encodes(s: map<string, string>, m: map<Key, string>) {
    && (forall k | k in m :: Stored(k) && TextOf(k) in s && s[TextOf(k)] == m[k])
    && (forall t | t in s :: exists k :: k in m && TextOf(k) == t)
  }

  lemma CascadeMatches(op: Op, k: Key)
    requires WfOp(op) && Stored(k)
    ensures CascadesText(op, TextOf(k)) <==> Cascades(op, k)
  {
    match op
    case DropSubsystem(nqn) => SubsystemCascadeExact(nqn, k);
    case DropNamespace(nqn, nsid) => NamespaceCascadeExact(nqn, nsid, k);
    case DropIfPresent(Host(nqn, host)) =>
      FamilyByPrefix(k, HostSecretF);
      if StartsWith(TextOf(k), BuildNqnHostKey(HostSecretF, nqn, Some(host))) {
        PrefixTransitive(PrefixText(HostSecretF), BuildNqnHostKey(HostSecretF, nqn, Some(host)), TextOf(k));
      }
    case _ =>
  }

  lemma HeadMatches(op: Op, k: Key)
    requires WfOp(op) && Stored(k)
    ensures TextOf(k) == TextOf(HeadKey(op)) <==> k == HeadKey(op)
  {
    if TextOf(k) == TextOf(HeadKey(op)) { TextInjective(k, HeadKey(op)); }
  }

  lemma HalfTextAt(op: Op, s: map<string, string>, t: string)
    ensures t in OmapHalfText(op, s) <==>
              && (if op.Set? then t == TextOf(op.k) || t in s else t in s && t != TextOf(HeadKey(op)))
              && !CascadesText(op, t)
    ensures t in OmapHalfText(op, s) ==> OmapHalfText(op, s)[t] == if op.Set? && t == TextOf(op.k) then op.v else s[t]
  {
  }

  lemma HalfAt(op: Op, m: map<Key, string>, k: Key)
    ensures k in OmapHalf(op, m) <==>
              (if op.Set? then k == op.k || k in m else k in m && k != HeadKey(op)) && !Cascades(op, k)
    ensures k in OmapHalf(op, m) ==> OmapHalf(op, m)[k] == if op.Set? && k == op.k then op.v else m[k]
  {
  }

  lemma ForwardOne(op: Op, s: map<string, string>, m: map<Key, string>, k: Key)
    requires WfOp(op) && Encodes(s, m) && k in OmapHalf(op, m)
    ensures Stored(k)
    ensures TextOf(k) in OmapHalfText(op, s) && OmapHalfText(op, s)[TextOf(k)] == OmapHalf(op, m)[k]
  {
    HalfAt(op, m, k);
    HeadMatches(op, k);
    CascadeMatches(op, k);
    HalfTextAt(op, s, TextOf(k));
  }

  lemma BackwardOne(op: Op, s: map<string, string>, m: map<Key, string>, t: string) returns (k: Key)
    requires WfOp(op) && Encodes(s, m) && t in OmapHalfText(op, s)
    ensures k in OmapHalf(op, m) && TextOf(k) == t
  {
    HalfTextAt(op, s, t);
    if op.Set? && t == TextOf(op.k) {
      k := op.k;
    } else {
      k :| k in m && TextOf(k) == t;
      HeadMatches(op, k);
    }
    CascadeMatches(op, k);
    HalfAt(op, m, k);
  }

  lemma RaisesMatches(op: Op, s: map<string, string>, m: map<Key, string>)
    requires WfOp(op) && Encodes(s, m)
    ensures LocalRaisesText(op, s) <==> LocalRaises(op, m)
  {
    if TextOf(HeadKey(op)) in s {
      var k :| k in m && TextOf(k) == TextOf(HeadKey(op));
      HeadMatches(op, k);
    }
  }

  /** The structured operations are exactly what the string operations do: on the string form of a
      state, the cascades hit the string forms of the right keys and nothing else. */
  lemma StringsRefineKeys(op: Op, s: map<string, string>, m: map<Key, string>)
    requires WfOp(op) && Encodes(s, m)
    ensures Encodes(OmapHalfText(op, s), OmapHalf(op, m))
    ensures Encodes(LocalHalfText(op, s), LocalHalf(op, m))
    ensures LocalRaisesText(op, s) <==> LocalRaises(op, m)
  {
    RaisesMatches(op, s, m);
    forall k | k in OmapHalf(op, m)
      ensures Stored(k) && TextOf(k) in OmapHalfText(op, s) && OmapHalfText(op, s)[TextOf(k)] == OmapHalf(op, m)[k]
    {
      ForwardOne(op, s, m, k);
    }
    forall t | t in OmapHalfText(op, s) ensures exists k :: k in OmapHalf(op, m) && TextOf(k) == t {
      var k := BackwardOne(op, s, m, t);
    }
  }

  /** Of the strings of a structured state, each operation erases the strings of just these keys. */
  lemma TextsThatRemain(op: Op, s: map<string, string>, m: map<Key, string>, k: Key)
    requires WfOp(op) && Encodes(s, m) && Stored(k)
    ensures TextOf(k) in OmapHalfText(op, s) <==>
            match op
            case Set(x, _) => k == x || TextOf(k) in s
            case Drop(x) => k != x && TextOf(k) in s
            case DropIfPresent(x) => k != x && TextOf(k) in s
            case DropSubsystem(q) => k.nqn != q && TextOf(k) in s
            case DropNamespace(q, i) =>
              && TextOf(k) in s && k != Namespace(q, i) && !(k.NsHost? && k.nqn == q && k.nsid == i)
              && !(k.Qos? && k.nqn == q && Decimal(i) <= Decimal(k.nsid))
  {
    StringsRefineKeys(op, s, m);
    EncodedAt(s, m, k);
    EncodedAt(OmapHalfText(op, s), OmapHalf(op, m), k);
    WhatRemains(op, m, k);
  }

  lemma EncodedAt(s: map<string, string>, m: map<Key, string>, k: Key)
    requires Encodes(s, m) && Stored(k)
    ensures TextOf(k) in s <==> k in m
  {
    if TextOf(k) in s {
      var x :| x in m && TextOf(x) == TextOf(k);
      TextInjective(x, k);
    }
  }
}
