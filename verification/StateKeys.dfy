/** The keys of the persisted gateway state: the string builders and the `break_*` parsers of
    `GatewayState` and `GatewayStateHandler`, the key families (prefixes), and the structured keys
    that the other modules use in place of the strings. */
module StateKeys {
  import opened Text

  /** One structured key per string that the builders produce. `Version` is the OMAP version key. */
  datatype Key =
    | Subsystem(nqn: string)
    | Host(nqn: string, host: string)
    | Namespace(nqn: string, nsid: nat)
    | Qos(nqn: string, nsid: nat)
    | NsHost(nqn: string, nsid: nat, host: string)
    | Listener(nqn: string, gateway: string, trtype: string, traddr: string, trsvcid: nat)
    | LbGroup(nqn: string, nsid: nat)
    | Visibility(nqn: string, nsid: nat)
    | TrashImage(nqn: string, nsid: nat)
    | HostSecret(nqn: string, host: string)
    | SubsystemSecret(nqn: string)
    | Version

  datatype Family =
    | SubsystemF | HostF | NamespaceF | QosF | NsHostF | ListenerF
    | LbGroupF | VisibilityF | TrashImageF | HostSecretF | SubsystemSecretF

  function FamilyName(f: Family): string {
    match f
    case SubsystemF => "subsystem"
    case HostF => "host"
    case NamespaceF => "namespace"
    case QosF => "qos"
    case NsHostF => "ns-host"
    case ListenerF => "listener"
    case LbGroupF => "lbgroup"
    case VisibilityF => "ns-visibility"
    case TrashImageF => "ns-trash-image"
    case HostSecretF => "key-host"
    case SubsystemSecretF => "key-subsystem"
  }

  function PrefixText(f: Family): string {
    FamilyName(f) + [DELIMITER]
  }

  function FamilyOf(k: Key): Option<Family> {
    match k
    case Subsystem(_) => Some(SubsystemF)
    case Host(_, _) => Some(HostF)
    case Namespace(_, _) => Some(NamespaceF)
    case Qos(_, _) => Some(QosF)
    case NsHost(_, _, _) => Some(NsHostF)
    case Listener(_, _, _, _, _) => Some(ListenerF)
    case LbGroup(_, _) => Some(LbGroupF)
    case Visibility(_, _) => Some(VisibilityF)
    case TrashImage(_, _) => Some(TrashImageF)
    case HostSecret(_, _) => Some(HostSecretF)
    case SubsystemSecret(_) => Some(SubsystemSecretF)
    case Version => None
  }

  /** Families whose keys are stored in the OMAP; the others only occur in a gateway's update. */
  predicate Persisted(k: Key) {
    k.Subsystem? || k.Host? || k.Namespace? || k.Qos? || k.NsHost? || k.Listener?
  }

  /** Every text element passes the gateway's key-element check. */
  predicate Wf(k: Key) {
    match k
    case Subsystem(nqn) => Free(nqn)
    case Host(nqn, host) => Free(nqn) && Free(host)
    case Namespace(nqn, _) => Free(nqn)
    case Qos(nqn, _) => Free(nqn)
    case NsHost(nqn, _, host) => Free(nqn) && Free(host)
    case Listener(nqn, gateway, trtype, traddr, _) =>
      Free(nqn) && Free(gateway) && gateway != "" && Free(trtype) && Free(traddr)
    case LbGroup(nqn, _) => Free(nqn)
    case Visibility(nqn, _) => Free(nqn)
    case TrashImage(nqn, _) => Free(nqn)
    case HostSecret(nqn, host) => Free(nqn) && Free(host)
    case SubsystemSecret(nqn) => Free(nqn)
    case Version => true
  }

  // ----- builders -----

  /** The builders of shape `prefix + nqn + "_" [+ str(nsid)]`. */
  function BuildNsidKey(f: Family, nqn: string, nsid: Option<nat>): string {
    var key := PrefixText(f) + nqn + [DELIMITER];
    if nsid.Some? then key + Decimal(nsid.value) else key
  }

  function BuildNamespaceHostKey(nqn: string, nsid: Option<nat>, host: string): string {
    var key := PrefixText(NsHostF) + nqn + [DELIMITER];
    if nsid.Some? then
      var key := key + Decimal(nsid.value) + [DELIMITER];
      if host != "" then key + host else key
    else key
  }

  /** The builders of shape `prefix + nqn`. */
  function BuildNqnKey(f: Family, nqn: string): string {
    PrefixText(f) + nqn
  }

  /** The builders of shape `prefix + nqn + "_" [+ host_nqn]`. */
  function BuildNqnHostKey(f: Family, nqn: string, host: Option<string>): string {
    var key := PrefixText(f) + nqn + [DELIMITER];
    if host.Some? then key + host.value else key
  }

  function BuildPartialListenerKey(nqn: string, gateway: string): string {
    var key := PrefixText(ListenerF) + nqn + [DELIMITER];
    if gateway != "" then key + gateway + [DELIMITER] else key
  }

  function BuildListenerKey(nqn: string, gateway: string, trtype: string, traddr: string, trsvcid: nat): string {
    BuildPartialListenerKey(nqn, gateway) +
    (if trtype != "" then trtype + [DELIMITER] else "") + traddr + [DELIMITER] + Decimal(trsvcid)
  }

  function TextOf(k: Key): string {
    match k
    case Subsystem(nqn) => BuildNqnKey(SubsystemF, nqn)
    case Host(nqn, host) => BuildNqnHostKey(HostF, nqn, Some(host))
    case Namespace(nqn, nsid) => BuildNsidKey(NamespaceF, nqn, Some(nsid))
    case Qos(nqn, nsid) => BuildNsidKey(QosF, nqn, Some(nsid))
    case NsHost(nqn, nsid, host) => BuildNamespaceHostKey(nqn, Some(nsid), host)
    case Listener(nqn, gateway, trtype, traddr, trsvcid) => BuildListenerKey(nqn, gateway, trtype, traddr, trsvcid)
    case LbGroup(nqn, nsid) => BuildNsidKey(LbGroupF, nqn, Some(nsid))
    case Visibility(nqn, nsid) => BuildNsidKey(VisibilityF, nqn, Some(nsid))
    case TrashImage(nqn, nsid) => BuildNsidKey(TrashImageF, nqn, Some(nsid))
    case HostSecret(nqn, host) => BuildNqnHostKey(HostSecretF, nqn, Some(host))
    case SubsystemSecret(nqn) => BuildNqnKey(SubsystemSecretF, nqn)
    case Version => "omap_version"
  }

  /** The delimiter-separated parts of a key. A listener's transport part is missing when empty. */
  function PartsOf(k: Key): (parts: seq<string>)
    ensures |parts| >= 2
  {
    match k
    case Subsystem(nqn) => [FamilyName(SubsystemF), nqn]
    case Host(nqn, host) => [FamilyName(HostF), nqn, host]
    case Namespace(nqn, nsid) => [FamilyName(NamespaceF), nqn, Decimal(nsid)]
    case Qos(nqn, nsid) => [FamilyName(QosF), nqn, Decimal(nsid)]
    case NsHost(nqn, nsid, host) => [FamilyName(NsHostF), nqn, Decimal(nsid), host]
    case Listener(nqn, gateway, trtype, traddr, trsvcid) =>
      [FamilyName(ListenerF), nqn, gateway] + (if trtype != "" then [trtype] else []) + [traddr, Decimal(trsvcid)]
    case LbGroup(nqn, nsid) => [FamilyName(LbGroupF), nqn, Decimal(nsid)]
    case Visibility(nqn, nsid) => [FamilyName(VisibilityF), nqn, Decimal(nsid)]
    case TrashImage(nqn, nsid) => [FamilyName(TrashImageF), nqn, Decimal(nsid)]
    case HostSecret(nqn, host) => [FamilyName(HostSecretF), nqn, host]
    case SubsystemSecret(nqn) => [FamilyName(SubsystemSecretF), nqn]
    case Version => ["omap", "version"]
  }

  lemma JoinSmall(a: string, b: string, c: string, d: string)
    ensures Join([a]) == a
    ensures Join([a, b]) == a + [DELIMITER] + b
    ensures Join([a, b, c]) == a + [DELIMITER] + b + [DELIMITER] + c
    ensures Join([a, b, c, d]) == a + [DELIMITER] + b + [DELIMITER] + c + [DELIMITER] + d
  {
    assert [a] + [b] == [a, b];
    assert [a, b] + [c] == [a, b, c];
    assert [a, b, c] + [d] == [a, b, c, d];
    JoinAppend([a], b);
    JoinAppend([a, b], c);
    JoinAppend([a, b, c], d);
  }

  lemma JoinFive(a: string, b: string, c: string, d: string, e: string)
    ensures Join([a, b, c, d, e]) == a + [DELIMITER] + b + [DELIMITER] + c + [DELIMITER] + d + [DELIMITER] + e
  {
    JoinSmall(a, b, c, d);
    JoinAppend([a, b, c, d], e);
    assert [a, b, c, d] + [e] == [a, b, c, d, e];
  }

  lemma JoinSix(a: string, b: string, c: string, d: string, e: string, f: string)
    ensures Join([a, b, c, d, e, f])
         == a + [DELIMITER] + b + [DELIMITER] + c + [DELIMITER] + d + [DELIMITER] + e + [DELIMITER] + f
  {
    JoinFive(a, b, c, d, e);
    JoinAppend([a, b, c, d, e], f);
    assert [a, b, c, d, e] + [f] == [a, b, c, d, e, f];
  }

  lemma PartialListenerText(nqn: string, gateway: string)
    requires gateway != ""
    ensures BuildPartialListenerKey(nqn, gateway) ==
              FamilyName(ListenerF) + [DELIMITER] + nqn + [DELIMITER] + gateway + [DELIMITER]
  {
    var p := PrefixText(ListenerF) + nqn + [DELIMITER];
    assert BuildPartialListenerKey(nqn, gateway) == p + (gateway + [DELIMITER])
             || BuildPartialListenerKey(nqn, gateway) == p + gateway + [DELIMITER];
  }

  lemma ListenerTextIsJoin(k: Key)
    requires k.Listener? && k.gateway != ""
    ensures TextOf(k) == Join(PartsOf(k))
  {
    var f, port := FamilyName(ListenerF), Decimal(k.trsvcid);
    PartialListenerText(k.nqn, k.gateway);
    if k.trtype != "" {
      JoinSix(f, k.nqn, k.gateway, k.trtype, k.traddr, port);
      assert PartsOf(k) == [f, k.nqn, k.gateway, k.trtype, k.traddr, port];
      var p := BuildPartialListenerKey(k.nqn, k.gateway);
      assert p + (k.trtype + [DELIMITER]) == p + k.trtype + [DELIMITER];
    } else {
      JoinFive(f, k.nqn, k.gateway, k.traddr, port);
      assert PartsOf(k) == [f, k.nqn, k.gateway, k.traddr, port];
      var p := BuildPartialListenerKey(k.nqn, k.gateway);
      assert p + "" == p;
    }
  }

  lemma TextIsJoin(k: Key)
    requires Wf(k)
    ensures TextOf(k) == Join(PartsOf(k))
  {
    if k.Listener? {
      ListenerTextIsJoin(k);
    } else {
      var p := PartsOf(k);
      JoinSmall(p[0], p[1], if |p| > 2 then p[2] else "", if |p| > 3 then p[3] else "");
      if k.Version? {
        assert "omap" + [DELIMITER] + "version" == "omap_version";
      }
    }
  }

  lemma PartsAreFree(k: Key)
    requires Wf(k)
    ensures AllFree(PartsOf(k))
  {
    if FamilyOf(k).Some? { FamilyNameFree(FamilyOf(k).value); }
  }

  /** Splitting a built key gives back exactly its parts. */
  lemma SplitOfText(k: Key)
    requires Wf(k)
    ensures Split(TextOf(k)) == PartsOf(k)
  {
    TextIsJoin(k);
    PartsAreFree(k);
    SplitJoin(PartsOf(k));
  }

  /** The first part of a key of the given family; the version key has no family. */
  function HeadName(f: Option<Family>): string {
    if f.Some? then FamilyName(f.value) else "omap"
  }

  lemma HeadNameInjective(f: Option<Family>, g: Option<Family>)
    requires HeadName(f) == HeadName(g)
    ensures f == g
  {
    assert |HeadName(f)| == |HeadName(g)| && HeadName(f)[0] == HeadName(g)[0];
  }

  lemma HeadOfParts(k: Key)
    ensures PartsOf(k)[0] == HeadName(FamilyOf(k))
  {}

  predicate HasNsid(k: Key) {
    k.Namespace? || k.Qos? || k.NsHost? || k.LbGroup? || k.Visibility? || k.TrashImage?
  }

  /** Building is injective, within a family and across families. A listener key is only unambiguous
      when its transport type is given, as it always is ("TCP"). */
  lemma TextInjective(k: Key, l: Key)
    requires Wf(k) && Wf(l) && TextOf(k) == TextOf(l)
    requires (k.Listener? ==> k.trtype != "") && (l.Listener? ==> l.trtype != "")
    ensures k == l
  {
    SplitOfText(k);
    SplitOfText(l);
    HeadOfParts(k);
    HeadOfParts(l);
    HeadNameInjective(FamilyOf(k), FamilyOf(l));
    PartsInjective(k, l);
  }

  lemma PartsInjective(k: Key, l: Key)
    requires PartsOf(k) == PartsOf(l) && FamilyOf(k) == FamilyOf(l)
    requires (k.Listener? ==> k.trtype != "") && (l.Listener? ==> l.trtype != "")
    ensures k == l
  {
    var p, q := PartsOf(k), PartsOf(l);
    if !k.Version? { assert p[1] == q[1]; }
    if HasNsid(k) {
      assert p[2] == q[2];
      DecimalInjective(k.nsid, l.nsid);
      if k.NsHost? { assert p[3] == q[3]; }
    } else if k.Host? || k.HostSecret? {
      assert p[2] == q[2];
    } else if k.Listener? {
      assert p[2] == q[2] && p[3] == q[3] && p[4] == q[4] && p[5] == q[5];
      DecimalInjective(k.trsvcid, l.trsvcid);
    }
  }

  /** The texts of all keys, character by character. */
  lemma TextsOfKeys(q: string, i: nat, h: string)
    ensures TextOf(Subsystem(q)) == "subsystem_" + q && TextOf(SubsystemSecret(q)) == "key-subsystem_" + q
    ensures TextOf(Host(q, h)) == "host_" + q + "_" + h && TextOf(HostSecret(q, h)) == "key-host_" + q + "_" + h
    ensures TextOf(Namespace(q, i)) == "namespace_" + q + "_" + Decimal(i)
    ensures TextOf(Qos(q, i)) == "qos_" + q + "_" + Decimal(i)
    ensures TextOf(Version) == "omap_version"
  {
    FamilyTexts();
  }

  lemma TextsOfMadeUpKeys(q: string, i: nat)
    ensures TextOf(LbGroup(q, i)) == "lbgroup_" + q + "_" + Decimal(i)
    ensures TextOf(Visibility(q, i)) == "ns-visibility_" + q + "_" + Decimal(i)
    ensures TextOf(TrashImage(q, i)) == "ns-trash-image_" + q + "_" + Decimal(i)
  {
    FamilyTexts();
  }

  lemma TextOfNsHost(q: string, i: nat, h: string)
    ensures TextOf(NsHost(q, i, h)) == "ns-host_" + q + "_" + Decimal(i) + "_" + h
  {
    FamilyTexts();
    var key := PrefixText(NsHostF) + q + [DELIMITER] + Decimal(i) + [DELIMITER];
    assert h == "" ==> key + h == key;
  }

  lemma TextOfListener(q: string, g: string, tr: string, a: string, port: nat)
    requires g != "" && tr != ""
    ensures TextOf(Listener(q, g, tr, a, port)) == "listener_" + q + "_" + g + "_" + tr + "_" + a + "_" + Decimal(port)
  {
    var k := Listener(q, g, tr, a, port);
    ListenerTextIsJoin(k);
    JoinSix("listener", q, g, tr, a, Decimal(port));
    assert PartsOf(k) == ["listener", q, g, tr, a, Decimal(port)];
    assert "listener" + [DELIMITER] == "listener_" && [DELIMITER] == "_";
  }

  lemma FamilyTexts()
    ensures PrefixText(SubsystemF) == "subsystem_" && PrefixText(HostF) == "host_"
              && PrefixText(NamespaceF) == "namespace_"
    ensures PrefixText(QosF) == "qos_" && PrefixText(NsHostF) == "ns-host_" && PrefixText(ListenerF) == "listener_"
    ensures PrefixText(LbGroupF) == "lbgroup_" && PrefixText(VisibilityF) == "ns-visibility_"
    ensures PrefixText(TrashImageF) == "ns-trash-image_" && PrefixText(HostSecretF) == "key-host_"
    ensures PrefixText(SubsystemSecretF) == "key-subsystem_"
  {
  }

  // ----- families -----

  lemma PrefixTextIsJoin(f: Family)
    ensures PrefixText(f) == Join([FamilyName(f)] + [""])
    ensures AllFree([FamilyName(f)]) && Free("")
  {
    JoinSmall(FamilyName(f), "", "", "");
    assert [FamilyName(f)] + [""] == [FamilyName(f), ""];
  }

  /** `key.startswith(prefix)` looks at the first part only. */
  lemma PrefixByFirstPart(s: string, f: Family)
    ensures StartsWith(s, PrefixText(f)) <==> |Split(s)| > 1 && Split(s)[0] == FamilyName(f)
  {
    PrefixTextIsJoin(f);
    PrefixByParts([FamilyName(f)], "", s);
  }

  /** No text falls into two families, so grouping by prefix is a partition, whatever the keys are. */
  lemma FamiliesDisjoint(s: string, f: Family, g: Family)
    requires StartsWith(s, PrefixText(f)) && StartsWith(s, PrefixText(g))
    ensures f == g
  {
    PrefixByFirstPart(s, f);
    PrefixByFirstPart(s, g);
    HeadNameInjective(Some(f), Some(g));
  }

  /** The family a prefix test finds for a built key is the family of the key. */
  lemma FamilyByPrefix(k: Key, f: Family)
    requires Wf(k)
    ensures StartsWith(TextOf(k), PrefixText(f)) <==> FamilyOf(k) == Some(f)
  {
    SplitOfText(k);
    PrefixByFirstPart(TextOf(k), f);
    HeadOfParts(k);
    if PartsOf(k)[0] == FamilyName(f) {
      HeadNameInjective(FamilyOf(k), Some(f));
    }
  }

  // ----- parsers -----

  /** `break_namespace_key`. The NQN test in the source inspects a tuple and never rejects. */
  function BreakNamespaceKey(s: string): Option<(string, nat)> {
    if !StartsWith(s, PrefixText(NamespaceF)) then None
    else
      var parts := Split(s[|PrefixText(NamespaceF)|..]);
      if |parts| != 2 then None
      else match ParseDecimal(parts[1])
           case None => None
           case Some(nsid) => Some((parts[0], nsid))
  }

  /** `break_host_key` */
  function BreakHostKey(s: string): Option<(string, string)> {
    if !StartsWith(s, PrefixText(HostF)) then None
    else
      var parts := Split(s[|PrefixText(HostF)|..]);
      if |parts| != 2 then None else Some((parts[0], parts[1]))
  }

  /** `break_subsystem_key` splits the whole key, prefix included. */
  function BreakSubsystemKey(s: string): Option<string> {
    if !StartsWith(s, PrefixText(SubsystemF)) then None
    else
      var parts := Split(s);
      if |parts| != 2 then None else Some(parts[1])
  }

  lemma SplitAfterPrefix(s: string, f: Family)
    requires StartsWith(s, PrefixText(f))
    ensures |Split(s)| > 1 && Split(s[|PrefixText(f)|..]) == Split(s)[1..]
  {
    PrefixByFirstPart(s, f);
    var rest := s[|PrefixText(f)|..];
    PrefixTextIsJoin(f);
    assert s == FamilyName(f) + [DELIMITER] + rest;
    SplitFirst(FamilyName(f), rest);
  }

  /** The parsers accept exactly the texts whose parts have the builder's shape, and return the parts:
      nothing else about the NQN is checked. */
  lemma BreakAcceptsExactly(s: string, nqn: string, nsid: nat, host: string)
    ensures BreakNamespaceKey(s) == Some((nqn, nsid)) <==>
            && |Split(s)| == 3 && Split(s)[0] == "namespace" && Split(s)[1] == nqn
            && ParseDecimal(Split(s)[2]) == Some(nsid)
    ensures BreakHostKey(s) == Some((nqn, host)) <==> Split(s) == ["host", nqn, host]
    ensures BreakSubsystemKey(s) == Some(nqn) <==> Split(s) == ["subsystem", nqn]
  {
    var parts := Split(s);
    PrefixByFirstPart(s, NamespaceF);
    PrefixByFirstPart(s, HostF);
    PrefixByFirstPart(s, SubsystemF);
    if StartsWith(s, PrefixText(NamespaceF)) { SplitAfterPrefix(s, NamespaceF); }
    if StartsWith(s, PrefixText(HostF)) { SplitAfterPrefix(s, HostF); }
    if |parts| == 3 { assert parts == [parts[0], parts[1], parts[2]]; }
    if |parts| == 2 { assert parts == [parts[0], parts[1]]; }
  }

  /** `break_*` inverts `build_*` on delimiter-free elements. */
  lemma BreakInvertsBuild(nqn: string, nsid: nat, host: string)
    requires Free(nqn) && Free(host)
    ensures BreakNamespaceKey(BuildNsidKey(NamespaceF, nqn, Some(nsid))) == Some((nqn, nsid))
    ensures BreakHostKey(BuildNqnHostKey(HostF, nqn, Some(host))) == Some((nqn, host))
    ensures BreakSubsystemKey(BuildNqnKey(SubsystemF, nqn)) == Some(nqn)
  {
    ParseOfDecimal(nsid);
    SplitOfText(Namespace(nqn, nsid));
    SplitOfText(Host(nqn, host));
    SplitOfText(Subsystem(nqn));
    BreakAcceptsExactly(TextOf(Namespace(nqn, nsid)), nqn, nsid, host);
    BreakAcceptsExactly(TextOf(Host(nqn, host)), nqn, nsid, host);
    BreakAcceptsExactly(TextOf(Subsystem(nqn)), nqn, nsid, host);
  }

  // ----- cascading removals -----

  /** The `startswith` chain in `remove_subsystem`. */
  predicate SubsystemCascade(nqn: string, key: string) {
    || StartsWith(key, BuildNsidKey(NamespaceF, nqn, None))
    || StartsWith(key, BuildNsidKey(QosF, nqn, None))
    || StartsWith(key, BuildNamespaceHostKey(nqn, None, ""))
    || StartsWith(key, BuildNqnHostKey(HostF, nqn, None))
    || StartsWith(key, BuildNqnHostKey(HostSecretF, nqn, None))
    || StartsWith(key, BuildNqnKey(SubsystemSecretF, nqn))
    || StartsWith(key, BuildPartialListenerKey(nqn, ""))
  }

  /** The `startswith` chain in `remove_namespace`; the qos prefix has no trailing delimiter. */
  predicate NamespaceCascade(nqn: string, nsid: nat, key: string) {
    || StartsWith(key, BuildNsidKey(QosF, nqn, Some(nsid)))
    || StartsWith(key, BuildNamespaceHostKey(nqn, Some(nsid), ""))
  }

  lemma PrefixByTwoParts(a: string, b: string, s: string)
    requires Free(a) && Free(b)
    ensures StartsWith(s, a + [DELIMITER] + b + [DELIMITER]) <==> |Split(s)| > 2 && Split(s)[0] == a && Split(s)[1] == b
  {
    JoinSmall(a, b, "", "");
    assert [a, b] + [""] == [a, b, ""];
    PrefixByParts([a, b], "", s);
    if |Split(s)| > 2 {
      assert Split(s)[..2] == [Split(s)[0], Split(s)[1]];
    }
  }

  lemma PrefixByThreeParts(a: string, b: string, c: string, d: string, s: string)
    requires Free(a) && Free(b) && Free(c) && Free(d)
    ensures StartsWith(s, a + [DELIMITER] + b + [DELIMITER] + c) <==>
            |Split(s)| > 2 && Split(s)[0] == a && Split(s)[1] == b && c <= Split(s)[2]
    ensures StartsWith(s, a + [DELIMITER] + b + [DELIMITER] + c + [DELIMITER] + d) <==>
            |Split(s)| > 3 && Split(s)[0] == a && Split(s)[1] == b && Split(s)[2] == c && d <= Split(s)[3]
  {
    JoinSmall(a, b, c, d);
    assert [a, b] + [c] == [a, b, c];
    assert [a, b, c] + [d] == [a, b, c, d];
    PrefixByParts([a, b], c, s);
    PrefixByParts([a, b, c], d, s);
    var p := Split(s);
    if |p| > 2 { assert p[..2] == [p[0], p[1]]; }
    if |p| > 3 { assert p[..3] == [p[0], p[1], p[2]]; }
  }

  /** A prefix `family_nqn_` selects the keys of that family and that NQN. */
  lemma NqnPrefix(f: Family, nqn: string, k: Key)
    requires Wf(k) && Free(nqn)
    ensures StartsWith(TextOf(k), PrefixText(f) + nqn + [DELIMITER]) <==>
            FamilyOf(k) == Some(f) && |PartsOf(k)| > 2 && k.nqn == nqn
  {
    SplitOfText(k);
    HeadOfParts(k);
    FamilyNameFree(f);
    PrefixByTwoParts(FamilyName(f), nqn, TextOf(k));
    if PartsOf(k)[0] == FamilyName(f) {
      HeadNameInjective(FamilyOf(k), Some(f));
    }
  }

  lemma FamilyNameFree(f: Family)
    ensures Free(FamilyName(f))
  {
    PrefixTextIsJoin(f);
    assert [FamilyName(f)][0] == FamilyName(f);
  }

  /** What `remove_subsystem` erases besides the subsystem key: of the persisted keys, exactly those of
      that NQN, even when one NQN is a prefix of another. */
  lemma SubsystemCascadeExact(nqn: string, k: Key)
    requires Wf(k) && Free(nqn) && Persisted(k)
    ensures SubsystemCascade(nqn, TextOf(k)) <==> !k.Subsystem? && k.nqn == nqn
  {
    NqnPrefix(NamespaceF, nqn, k);
    NqnPrefix(QosF, nqn, k);
    NqnPrefix(NsHostF, nqn, k);
    NqnPrefix(HostF, nqn, k);
    NqnPrefix(HostSecretF, nqn, k);
    NqnPrefix(ListenerF, nqn, k);
    FamilyByPrefix(k, SubsystemSecretF);
    if StartsWith(TextOf(k), BuildNqnKey(SubsystemSecretF, nqn)) {
      PrefixTransitive(PrefixText(SubsystemSecretF), BuildNqnKey(SubsystemSecretF, nqn), TextOf(k));
    }
  }

  lemma PrefixTransitive(a: string, b: string, c: string)
    requires a <= b && b <= c
    ensures a <= c
  {}

  /** The version key survives every cascade. */
  lemma VersionSurvives(nqn: string, nsid: nat)
    requires Free(nqn)
    ensures !SubsystemCascade(nqn, TextOf(Version)) && !NamespaceCascade(nqn, nsid, TextOf(Version))
  {
    NqnPrefix(NamespaceF, nqn, Version);
    NqnPrefix(QosF, nqn, Version);
    NqnPrefix(NsHostF, nqn, Version);
    NqnPrefix(HostF, nqn, Version);
    NqnPrefix(HostSecretF, nqn, Version);
    NqnPrefix(ListenerF, nqn, Version);
    FamilyByPrefix(Version, SubsystemSecretF);
    if StartsWith(TextOf(Version), BuildNqnKey(SubsystemSecretF, nqn)) {
      PrefixTransitive(PrefixText(SubsystemSecretF), BuildNqnKey(SubsystemSecretF, nqn), TextOf(Version));
    }
    NamespaceCascadePrefixes(nqn, nsid, TextOf(Version));
  }

  lemma NamespaceCascadePrefixes(nqn: string, nsid: nat, s: string)
    ensures NamespaceCascade(nqn, nsid, s) ==>
            StartsWith(s, BuildNsidKey(QosF, nqn, None)) || StartsWith(s, BuildNamespaceHostKey(nqn, None, ""))
  {
    if StartsWith(s, BuildNsidKey(QosF, nqn, Some(nsid))) {
      PrefixTransitive(BuildNsidKey(QosF, nqn, None), BuildNsidKey(QosF, nqn, Some(nsid)), s);
    } else if StartsWith(s, BuildNamespaceHostKey(nqn, Some(nsid), "")) {
      PrefixTransitive(BuildNamespaceHostKey(nqn, None, ""), BuildNamespaceHostKey(nqn, Some(nsid), ""), s);
    }
  }

  /** What `remove_namespace` erases besides the namespace key: the namespace's own host keys, and the
      qos keys of every namespace of that NQN whose decimal NSID starts with this one. */
  lemma NamespaceCascadeExact(nqn: string, nsid: nat, k: Key)
    requires Wf(k) && Free(nqn)
    ensures NamespaceCascade(nqn, nsid, TextOf(k)) <==>
            || (k.Qos? && k.nqn == nqn && ExtendsDecimal(nsid, k.nsid))
            || (k.NsHost? && k.nqn == nqn && k.nsid == nsid)
  {
    var s, d := TextOf(k), Decimal(nsid);
    SplitOfText(k);
    HeadOfParts(k);
    FamilyNameFree(QosF);
    FamilyNameFree(NsHostF);
    PrefixByThreeParts(FamilyName(QosF), nqn, d, "", s);
    PrefixByThreeParts(FamilyName(NsHostF), nqn, d, "", s);
    assert BuildNamespaceHostKey(nqn, Some(nsid), "") ==
           FamilyName(NsHostF) + [DELIMITER] + nqn + [DELIMITER] + d + [DELIMITER] + "";
    if PartsOf(k)[0] == FamilyName(QosF) { HeadNameInjective(FamilyOf(k), Some(QosF)); }
    if PartsOf(k)[0] == FamilyName(NsHostF) { HeadNameInjective(FamilyOf(k), Some(NsHostF)); }
    if k.Qos? { DecimalPrefix(nsid, k.nsid); }
    if k.NsHost? && Decimal(k.nsid) == d { DecimalInjective(k.nsid, nsid); }
  }

  /** Removing a namespace touches only that namespace's keys if and only if no other namespace of the
      subsystem with a stored qos key has an NSID that extends the removed one in decimal. */
  lemma NamespaceCascadeIsLocal(nqn: string, nsid: nat, keys: set<Key>)
    requires Free(nqn) && forall k | k in keys :: Wf(k)
    ensures (forall k | k in keys && NamespaceCascade(nqn, nsid, TextOf(k)) :: HasNsid(k) && k.nsid == nsid) <==>
            (forall k | k in keys && k.Qos? && k.nqn == nqn && k.nsid != nsid :: !ExtendsDecimal(nsid, k.nsid))
  {
    forall k | k in keys
      ensures NamespaceCascade(nqn, nsid, TextOf(k)) <==>
            || (k.Qos? && k.nqn == nqn && ExtendsDecimal(nsid, k.nsid))
            || (k.NsHost? && k.nqn == nqn && k.nsid == nsid)
    {
      NamespaceCascadeExact(nqn, nsid, k);
    }
  }

  /** Removing NSID 1 also erases the qos settings of NSID 10. */
  lemma NamespaceOneErasesQosOfTen(nqn: string)
    requires Free(nqn)
    ensures NamespaceCascade(nqn, 1, TextOf(Qos(nqn, 10)))
  {
    NamespaceCascadeExact(nqn, 1, Qos(nqn, 10));
  }
}
