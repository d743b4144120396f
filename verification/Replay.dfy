/** What a gateway that is behind sends to its SPDK target to catch up, and when the target then agrees with
    the shared state. */
module Replay {
  import opened Text
  import opened StateKeys
  import opened StateOps

  /** The stored requests: the fields that matter here, and everything else as `rest`. `LbVal` to `SecretVal`
      are the values of the keys an update makes up for itself. */
  datatype Val =
    | SubsysVal(dhchap: string, serial: string, rest: string)
    | HostVal(dhchap: string, rest: string)
    | NsVal(grp: int, hidden: bool, trash: bool, create: bool, uuid: string, rest: string)
    | QosVal(limits: Limits, rest: string)
    | NsHostVal(force: bool, rest: string)
    | ListenerVal(secure: bool, rest: string)
    | OtherVal(rest: string)
    | LbVal(grp: int)
    | VisVal(visible: bool)
    | TrashVal(trash: bool)
    | SecretVal(dhchap: string)

  /** The limits a QoS request names, or those of a block device. */
  datatype Limits = Limits(rwIos: Option<nat>, rwMbytes: Option<nat>, rMbytes: Option<nat>, wMbytes: Option<nat>)

  type State = map<Key, Val>

  /** The host name of the gateway that updates, whatever it is. */
  const HOST_NAME: string

  /** The host entry that allows all hosts. */
  const ANY_HOST := "*"

  predicate Fits(k: Key, v: Val) {
    match k
    case Subsystem(_) => v.SubsysVal?
    case Host(_, _) => v.HostVal?
    case Namespace(_, _) => v.NsVal?
    case NsHost(_, _, _) => v.NsHostVal?
    case Listener(_, _, _, _, _) => v.ListenerVal?
    case Qos(_, _) => v.QosVal?
    case LbGroup(_, _) => v.LbVal?
    case Visibility(_, _) => v.VisVal?
    case TrashImage(_, _) => v.TrashVal?
    case HostSecret(_, _) => v.SecretVal?
    case SubsystemSecret(_) => v.SecretVal?
    case _ => v.OtherVal?
  }

  /** What the handlers let into the shared state: keys with proper elements, values of their kind, and for
      every object its parent. The version key is stored beside them. */
  predicate WfState(s: State) {
    forall k | k in s :: WfEntry(s, k)
  }

  predicate WfEntry(s: State, k: Key)
    requires k in s
  {
    && Wf(k) && Fits(k, s[k]) && (Persisted(k) || k.Version?)
    && (!k.Version? ==> k.nqn != "")
    && (k.Namespace? ==> k.nsid != 0) && (k.Host? ==> k.host != "") && (k.NsHost? ==> k.host != ANY_HOST)
    && (Parent(k).Some? ==> Parent(k).value in s)
  }

  // ----- the target -----

  /** What no target of this gateway has: a host entry of a namespace that is visible to all hosts, and a
      listener of another gateway. */
  predicate Moot(s: State, k: Key) {
    || (k.Listener? && k.gateway != HOST_NAME)
    || (k.NsHost? && Namespace(k.nqn, k.nsid) in s && s[Namespace(k.nqn, k.nsid)].NsVal?
        && !s[Namespace(k.nqn, k.nsid)].hidden)
  }

  predicate Live(s: State, k: Key) {
    k in s && Persisted(k) && !Moot(s, k)
  }

  const NO_LIMITS := Limits(None, None, None, None)

  /** A limit of zero is no limit. */
  function Effective(x: Option<nat>): Option<nat> {
    if x == Some(0) then None else x
  }

  function OneLimit(old_: Option<nat>, new_: Option<nat>): Option<nat> {
    if new_.None? then old_ else Effective(new_)
  }

  /** A QoS request sets the limits it names and leaves the others of the block device alone. */
  function OnTop(old_: Limits, new_: Limits): Limits {
    Limits(OneLimit(old_.rwIos, new_.rwIos), OneLimit(old_.rwMbytes, new_.rwMbytes),
           OneLimit(old_.rMbytes, new_.rMbytes), OneLimit(old_.wMbytes, new_.wMbytes))
  }

  /** An object as it is created from its request: the image of a namespace is trashed only if the gateway
      created it, and a block device has no limits at first. */
  function Install(v: Val): Val {
    match v
    case NsVal(_, _, trash, create, _, _) => v.(trash := trash && create)
    case QosVal(limits, rest) => QosVal(OnTop(NO_LIMITS, limits), rest)
    case _ => v
  }

  /** What an accepted add request leaves at its key. */
  function Placed(t: State, k: Key, v: Val): Val {
    if k.Qos? && k in t && t[k].QosVal? && v.QosVal? then QosVal(OnTop(t[k].limits, v.limits), v.rest) else Install(v)
  }

  /** The target that a state describes. */
  function Installed(s: State): State {
    map k | k in s && Live(s, k) :: Install(s[k])
  }

  /** A target has what SPDK keeps: every object's parent, hosts only on namespaces that are hidden, and the
      gateway's own listeners. */
  predicate TargetOk(t: State) {
    forall k | k in t ::
      && Persisted(k) && Fits(k, t[k]) && !Moot(t, k)
      && (Parent(k).Some? ==> Parent(k).value in t)
  }

  /** Deleting `p` deletes `k`. Deleting QoS limits is left to the deletion of the namespace. */
  predicate Erases(p: Key, k: Key) {
    match p
    case Subsystem(q) => Persisted(k) && k.nqn == q
    case Namespace(q, i) => p == k || ((k.Qos? || k.NsHost?) && k.nqn == q && k.nsid == i)
    case Qos(_, _) => false
    case _ => p == k
  }

  /** The DH-HMAC-CHAP key of a subsystem, empty if there is none. */
  function KeyOf(t: State, q: string): string {
    if Subsystem(q) in t && t[Subsystem(q)].SubsysVal? then t[Subsystem(q)].dhchap else ""
  }

  /** With a key on the subsystem every host needs one too; the entry for all hosts goes without any. */
  predicate KeyFits(subsystemKey: string, host: string, hostKey: string) {
    if host == ANY_HOST then subsystemKey == "" && hostKey == "" else subsystemKey == "" || hostKey != ""
  }

  predicate IsSecure(v: Val) {
    v.ListenerVal? && v.secure
  }

  predicate HasSecureListener(t: State, q: string) {
    exists k :: k in t && k.Listener? && k.nqn == q && IsSecure(t[k])
  }

  /** The host may access the subsystem, or the request does not care. */
  predicate HostAllowed(t: State, q: string, host: string, v: Val) {
    Host(q, host) in t || Host(q, ANY_HOST) in t || (v.NsHostVal? && v.force)
  }

  /** Two subsystems with one serial number, or two namespaces with one UUID, from which the block device has its
      name. */
  predicate Clashes(k: Key, v: Val, x: Key, w: Val) {
    && k != x
    && (|| (k.Subsystem? && x.Subsystem? && v.SubsysVal? && w.SubsysVal? && v.serial == w.serial)
        || (k.Namespace? && x.Namespace? && v.NsVal? && w.NsVal? && v.uuid == w.uuid))
  }

  predicate ClashesAt(t: State, k: Key, v: Val, x: Key) {
    x in t && Clashes(k, v, x, t[x])
  }

  /** The serial number, or the name of the block device, is not taken. `b` are the UUIDs of block devices that no
      namespace uses. */
  predicate NameFree(t: State, b: set<string>, k: Key, v: Val) {
    (forall x | x in t :: !ClashesAt(t, k, v, x)) && !(k.Namespace? && v.NsVal? && v.uuid in b)
  }

  /** No other key of the group has the name. */
  predicate Alone(g: State, k: Key)
    requires k in g
  {
    forall x | x in g :: !Clashes(k, g[k], x, g[x])
  }

  predicate IsHidden(t: State, q: string, i: nat) {
    Namespace(q, i) in t && t[Namespace(q, i)].NsVal? && t[Namespace(q, i)].hidden
  }

  /** An add request with value `v` is taken when the object does not exist, its parent does, and: the serial number
      of a subsystem and the block device of a namespace are not there yet, a host fits the subsystem's key, all
      hosts are not let in beside secure listeners, a host of a namespace may access the subsystem and the namespace
      is hidden, and a listener is the gateway's own and not secure where all hosts are let in. QoS limits may be
      set again. */
  predicate Accepts(t: State, b: set<string>, k: Key, v: Val) {
    match k
    case Subsystem(_) => k !in t && NameFree(t, b, k, v)
    case Qos(q, i) => Namespace(q, i) in t
    case Host(q, h) =>
      && k !in t && Subsystem(q) in t && v.HostVal? && KeyFits(KeyOf(t, q), h, v.dhchap)
      && (h == ANY_HOST ==> !HasSecureListener(t, q))
    case Namespace(q, i) => k !in t && Subsystem(q) in t && NameFree(t, b, k, v)
    case NsHost(q, i, h) => k !in t && IsHidden(t, q, i) && HostAllowed(t, q, h, v)
    case Listener(q, g, _, _, _) =>
      k !in t && Subsystem(q) in t && g == HOST_NAME && (IsSecure(v) ==> Host(q, ANY_HOST) !in t)
    case _ => false
  }

  /** The change of a host's key is taken: it is not the entry for all hosts, and it does not take the key away
      that the subsystem's key demands. */
  predicate TakesKey(subsystemKey: string, host: string, hostKey: string) {
    host != ANY_HOST && (hostKey != "" || subsystemKey == "")
  }

  /** What the made-up requests `g` make of the object `v` at `k` on target `t`. */
  function Modified(t: State, g: State, k: Key, v: Val): Val {
    match k
    case Subsystem(q) =>
      if v.SubsysVal? && SubsystemSecret(q) in g && g[SubsystemSecret(q)].SecretVal?
      then SubsysVal(g[SubsystemSecret(q)].dhchap, v.serial, v.rest) else v
    case Host(q, h) =>
      if v.HostVal? && HostSecret(q, h) in g && g[HostSecret(q, h)].SecretVal?
         && TakesKey(KeyOf(t, q), h, g[HostSecret(q, h)].dhchap)
      then HostVal(g[HostSecret(q, h)].dhchap, v.rest) else v
    case Namespace(q, i) =>
      if v.NsVal? then
        v.(grp := if LbGroup(q, i) in g && g[LbGroup(q, i)].LbVal? then g[LbGroup(q, i)].grp else v.grp,
           hidden := if Visibility(q, i) in g && g[Visibility(q, i)].VisVal?
                     then !g[Visibility(q, i)].visible else v.hidden,
           trash := if TrashImage(q, i) in g && g[TrashImage(q, i)].TrashVal?
                    then g[TrashImage(q, i)].trash else v.trash)
      else v
    case _ => v
  }

  /** The hosts of a namespace that becomes visible to all are removed from it. */
  predicate DropsHost(g: State, k: Key) {
    k.NsHost? && Visibility(k.nqn, k.nsid) in g && g[Visibility(k.nqn, k.nsid)] == VisVal(true)
  }

  predicate InPlaceFamily(f: Family) {
    f.LbGroupF? || f.VisibilityF? || f.TrashImageF? || f.HostSecretF? || f.SubsystemSecretF?
  }

  /** The target after removal requests for all keys of a group. */
  function Without(t: State, g: State): State {
    map k | k in t && !ErasedBy(g, k) :: t[k]
  }

  predicate ErasedBy(g: State, k: Key) {
    || (k in g && Erases(k, k))
    || (!k.Version? && Subsystem(k.nqn) in g && Persisted(k))
    || ((k.Qos? || k.NsHost?) && Namespace(k.nqn, k.nsid) in g)
  }

  /** The block devices that the removal requests of a group leave without a namespace: the gateway does not delete
      those of a subsystem that it deletes. */
  function Unused(t: State, g: State): set<string> {
    set k | k in t && k.Namespace? && t[k].NsVal? && Subsystem(k.nqn) in g :: t[k].uuid
  }

  /** The target after add requests for all keys of a group of one family. When keys of the group clash, the loop takes
      the one that comes first; which one that is does not matter here, so none is taken. */
  function With(t: State, b: set<string>, f: Family, g: State): State {
    if InPlaceFamily(f) then
      map k | k in t && !DropsHost(g, k) :: Modified(t, g, k, t[k])
    else
      t + map k | k in g && Accepts(t, b, k, g[k]) && Alone(g, k) :: Placed(t, k, g[k])
  }

  // ----- the difference of two states -----

  predicate Removed(l: State, n: State, k: Key) {
    k in l && k !in n
  }

  predicate Added(l: State, n: State, k: Key) {
    k in n && k !in l
  }

  predicate Differs(l: State, n: State, k: Key) {
    k in l && k in n && l[k] != n[k]
  }

  /** Only fields differ for which there is a request that changes them. */
  predicate OnlyMinor(old_: Val, new_: Val) {
    match (old_, new_)
    case (NsVal(_, _, _, c, u, r), NsVal(_, _, _, c', u', r')) => c == c' && u == u' && r == r'
    case (HostVal(_, r), HostVal(_, r')) => r == r'
    case (SubsysVal(_, s, r), SubsysVal(_, s', r')) => s == s' && r == r'
    case _ => false
  }

  predicate InPlace(l: State, n: State, k: Key) {
    Differs(l, n, k) && OnlyMinor(l[k], n[k])
  }

  /** Changed in a way that needs deleting and adding again. */
  predicate ReAdded(l: State, n: State, k: Key) {
    Differs(l, n, k) && !OnlyMinor(l[k], n[k])
  }

  /** Some key of the family is deleted and added again. Its removed and its new keys are then forgotten. */
  predicate Busy(l: State, n: State, f: Option<Family>) {
    exists k :: k in n && ReAdded(l, n, k) && FamilyOf(k) == f
  }

  /** A removal request is sent for the key. */
  predicate SentOut(l: State, n: State, k: Key) {
    Persisted(k) && (ReAdded(l, n, k) || (Removed(l, n, k) && !Busy(l, n, FamilyOf(k))))
  }

  /** An add request is sent for the key. */
  predicate SentIn(l: State, n: State, k: Key) {
    Persisted(k) && (ReAdded(l, n, k) || (Added(l, n, k) && !Busy(l, n, FamilyOf(k))))
  }

  function OutGroup(l: State, n: State, f: Family): State {
    map k | k in l && FamilyOf(k) == Some(f) && SentOut(l, n, k) :: if k in n then n[k] else l[k]
  }

  /** The new value of a field that changes in place, for the kind of change that family `f` stands for. */
  function Listed(l: State, n: State, f: Family, k: Key): Option<Val> {
    if !InPlace(l, n, k) then None
    else match (f, k, l[k], n[k])
         case (LbGroupF, Namespace(_, _), NsVal(g, _, _, _, _, _), NsVal(g', _, _, _, _, _)) =>
           if g == g' then None else Some(LbVal(g'))
         case (VisibilityF, Namespace(_, _), NsVal(_, h, _, _, _, _), NsVal(_, h', _, _, _, _)) =>
           if h == h' then None else Some(VisVal(!h'))
         case (TrashImageF, Namespace(_, _), NsVal(_, _, t, _, _, _), NsVal(_, _, t', _, _, _)) =>
           if t == t' then None else Some(TrashVal(t'))
         case (HostSecretF, Host(_, _), HostVal(_, _), HostVal(d, _)) => Some(SecretVal(d))
         case (SubsystemSecretF, Subsystem(_), SubsysVal(_, _, _), SubsysVal(d, _, _)) => Some(SecretVal(d))
         case _ => None
  }

  /** The key under which the request for such a change is filed. There is none for the host entry "*". */
  function MadeKey(f: Family, k: Key): Option<Key> {
    match (f, k)
    case (LbGroupF, Namespace(q, i)) => Some(LbGroup(q, i))
    case (VisibilityF, Namespace(q, i)) => Some(Visibility(q, i))
    case (TrashImageF, Namespace(q, i)) => Some(TrashImage(q, i))
    case (HostSecretF, Host(q, h)) => if h == ANY_HOST then None else Some(HostSecret(q, h))
    case (SubsystemSecretF, Subsystem(q)) => Some(SubsystemSecret(q))
    case _ => None
  }

  /** The made-up request for a change in place, if there is one in family `f`. */
  function MadeUp(l: State, n: State, f: Family, k: Key): Option<(Key, Val)> {
    match (Listed(l, n, f, k), MadeKey(f, k))
    case (Some(v), Some(s)) => Some((s, v))
    case _ => None
  }

  /** The object a made-up key is about. */
  function Subject(s: Key): Key {
    match s
    case LbGroup(q, i) => Namespace(q, i)
    case Visibility(q, i) => Namespace(q, i)
    case TrashImage(q, i) => Namespace(q, i)
    case HostSecret(q, h) => Host(q, h)
    case SubsystemSecret(q) => Subsystem(q)
    case _ => s
  }

  function MadeUpKeys(l: State, n: State, f: Family): set<Key> {
    set k | k in l && MadeUp(l, n, f, k).Some? :: MadeUp(l, n, f, k).value.0
  }

  function InGroup(l: State, n: State, f: Family): State {
    if InPlaceFamily(f) then
      map s | s in MadeUpKeys(l, n, f) :: MadeUp(l, n, f, Subject(s)).value.1
    else
      map k | k in n && FamilyOf(k) == Some(f) && SentIn(l, n, k) :: n[k]
  }
  // ----- the whole update -----

  /** The order of the additions; removals go the other way. */
  const PREFIXES := [SubsystemF, HostF, NamespaceF, QosF, NsHostF, ListenerF]

  /** The families of the requests for changes in place, in the order in which they follow. */
  const MINOR_PREFIXES := FIRST_MINORS + [HostSecretF]

  const FIRST_MINORS := [SubsystemSecretF, LbGroupF, VisibilityF, TrashImageF]

  /** Removals of the families `fs`, last family first. */
  function WithoutAll(t: State, l: State, n: State, fs: seq<Family>): State {
    if fs == [] then t
    else WithoutAll(Without(t, OutGroup(l, n, fs[|fs| - 1])), l, n, fs[..|fs| - 1])
  }

  function WithIn(t: State, b: set<string>, l: State, n: State, f: Family): State {
    With(t, b, f, InGroup(l, n, f))
  }

  function WithAll(t: State, b: set<string>, l: State, n: State, fs: seq<Family>): State {
    if fs == [] then t
    else WithIn(WithAll(t, b, l, n, fs[..|fs| - 1]), b, l, n, fs[|fs| - 1])
  }

  function AfterRemovals(t: State, l: State, n: State): State {
    WithoutAll(t, l, n, PREFIXES)
  }

  function AfterAdditions(t: State, b: set<string>, l: State, n: State): State {
    WithAll(t, b, l, n, PREFIXES)
  }

  /** The block devices without a namespace after the removals of the families `fs`, last family first. */
  function UnusedAfter(t: State, b: set<string>, l: State, n: State, fs: seq<Family>): set<string> {
    if fs == [] then b
    else
      var g := OutGroup(l, n, fs[|fs| - 1]);
      UnusedAfter(Without(t, g), b + Unused(t, g), l, n, fs[..|fs| - 1])
  }

  /** The target after an update from local state `l` to shared state `n`. Additions leave no block device behind. */
  function Replayed(t: State, b: set<string>, l: State, n: State): State {
    var b' := UnusedAfter(t, b, l, n, PREFIXES);
    WithAll(AfterAdditions(AfterRemovals(t, l, n), b', l, n), b', l, n, MINOR_PREFIXES)
  }

  /** Some removal request erases the key: its own, its subsystem's or its namespace's. */
  predicate Erased(l: State, n: State, k: Key) {
    || (SentOut(l, n, k) && !k.Qos?)
    || (!k.Version? && SentOut(l, n, Subsystem(k.nqn)))
    || ((k.Qos? || k.NsHost?) && SentOut(l, n, Namespace(k.nqn, k.nsid)))
  }

  predicate Turned(l: State, n: State, q: string, i: nat, visible: bool) {
    var ns := Namespace(q, i);
    InPlace(l, n, ns) && l[ns].NsVal? && n[ns].NsVal? && l[ns].hidden == visible && n[ns].hidden != visible
  }

  /** The subsystem's key when hosts are added: a change in place comes later. */
  function MidKey(l: State, n: State, q: string): string {
    if InPlace(l, n, Subsystem(q)) then KeyOf(l, q) else KeyOf(n, q)
  }

  /** What must go is erased, and what must be there stands or is sent. */
  ghost predicate Complete(l: State, n: State) {
    && (forall k | Live(l, k) && !Live(n, k) :: Erased(l, n, k) || (k.NsHost? && Turned(l, n, k.nqn, k.nsid, true)))
    && (forall k | Live(n, k) :: Stands(l, n, k) || SentIn(l, n, k))
  }

  /** The handlers' checks let through what is sent: hosts have the keys that the subsystem's key asks for when
      they are sent, secure listeners and the entry for all hosts do not meet, hosts of namespaces may access the
      subsystem, and no namespace that turns hidden in place has hosts. */
  ghost predicate Admitted(l: State, n: State) {
    && (forall k | k in n && k.Host? && SentIn(l, n, k) ::
          n[k].HostVal? && KeyFits(MidKey(l, n, k.nqn), k.host, n[k].dhchap))
    && (forall k | Live(n, k) && k.Listener? && IsSecure(n[k]) && Host(k.nqn, ANY_HOST) in n ::
          !SentIn(l, n, k) && !SentIn(l, n, Host(k.nqn, ANY_HOST)))
    && (forall k | Live(n, k) && k.NsHost? && SentIn(l, n, k) :: HostAllowed(n, k.nqn, k.host, n[k]))
    && (forall k | k in n && k.NsHost? :: !Turned(l, n, k.nqn, k.nsid, false))
  }

  /** No serial number or UUID is sent that another object of the shared state has, nor the UUID of a block device
      that stays without a namespace. */
  ghost predicate Named(l: State, n: State, o: set<string>) {
    && (forall k, x | k in n && SentIn(l, n, k) && x in n :: !Clashes(k, n[k], x, n[x]))
    && (forall k | k in n && k.Namespace? && SentIn(l, n, k) && n[k].NsVal? :: n[k].uuid !in Unowned(l, n, o))
  }

  /** The block devices of the namespaces that only go with their subsystem. */
  function LeftBehind(l: State, n: State): set<string> {
    set k | k in l && k.Namespace? && l[k].NsVal? && SentOut(l, n, Subsystem(k.nqn)) && !SentOut(l, n, k) :: l[k].uuid
  }

  /** The block devices without a namespace after an update; `o` are those of earlier times. */
  function Unowned(l: State, n: State, o: set<string>): set<string> {
    o + LeftBehind(l, n)
  }

  /** A QoS request names every limit that is in force. */
  predicate KeepsNone(old_: Limits, new_: Limits) {
    && (new_.rwIos.None? ==> Effective(old_.rwIos).None?) && (new_.rwMbytes.None? ==> Effective(old_.rwMbytes).None?)
    && (new_.rMbytes.None? ==> Effective(old_.rMbytes).None?) && (new_.wMbytes.None? ==> Effective(old_.wMbytes).None?)
  }

  /** The changes in place do what deleting and adding again would do: no trash flag is set for an image the
      gateway did not create, no key of the entry for all hosts changes, and no host loses its key on a subsystem
      that has one. And QoS limits that are sent on top of others name them all. */
  ghost predicate Settled(l: State, n: State) {
    && (forall k | InPlace(l, n, k) && k.Namespace? && l[k].NsVal? && n[k].NsVal? ::
          n[k].trash && !l[k].trash ==> n[k].create)
    && (forall k | InPlace(l, n, k) && k.Host? && n[k].HostVal? :: TakesKey(KeyOf(n, k.nqn), k.host, n[k].dhchap))
    && (forall k: Key | k.Qos? && Stands(l, n, k) && SentIn(l, n, k) && l[k].QosVal? && n[k].QosVal? ::
          KeepsNone(l[k].limits, n[k].limits))
  }

  /** When an update brings the target to the shared state. */
  ghost predicate Clean(l: State, n: State, o: set<string>) {
    Complete(l, n) && Admitted(l, n) && Named(l, n, o) && Settled(l, n)
  }

  predicate Stands(l: State, n: State, k: Key) {
    Live(l, k) && !Erased(l, n, k)
  }

  // ----- removals -----

  /** What the removal requests of one family erase. */
  predicate ErasedByFamily(l: State, n: State, f: Family, k: Key) {
    match f
    case SubsystemF => Persisted(k) && SentOut(l, n, Subsystem(k.nqn))
    case NamespaceF => (k.Namespace? || k.Qos? || k.NsHost?) && SentOut(l, n, Namespace(k.nqn, k.nsid))
    case QosF => false
    case _ => FamilyOf(k) == Some(f) && SentOut(l, n, k)
  }

  lemma OutGroupHolds(l: State, n: State, f: Family, k: Key)
    ensures k in OutGroup(l, n, f) <==> FamilyOf(k) == Some(f) && SentOut(l, n, k)
  {
  }

  lemma OutGroupErases(l: State, n: State, f: Family, k: Key)
    requires Persisted(k)
    ensures ErasedBy(OutGroup(l, n, f), k) <==> ErasedByFamily(l, n, f, k)
  {
    OutGroupHolds(l, n, f, k);
    OutGroupHolds(l, n, f, Subsystem(k.nqn));
    if k.Namespace? || k.Qos? || k.NsHost? { OutGroupHolds(l, n, f, Namespace(k.nqn, k.nsid)); }
  }

  lemma WithoutGroup(t: State, l: State, n: State, f: Family, k: Key)
    requires k in t ==> Persisted(k)
    ensures var t' := Without(t, OutGroup(l, n, f));
            (k in t' <==> k in t && !ErasedByFamily(l, n, f, k)) && (k in t' ==> t'[k] == t[k])
  {
    if k in t { OutGroupErases(l, n, f, k); }
  }

  lemma {:induction false} WithoutFamilies(t: State, l: State, n: State, fs: seq<Family>, k: Key)
    requires k in t ==> Persisted(k)
    ensures var t' := WithoutAll(t, l, n, fs);
            && (k in t' <==> k in t && forall f | f in fs :: !ErasedByFamily(l, n, f, k))
            && (k in t' ==> t'[k] == t[k])
  {
    if fs != [] {
      var f, rest := fs[|fs| - 1], fs[..|fs| - 1];
      WithoutGroup(t, l, n, f, k);
      WithoutFamilies(Without(t, OutGroup(l, n, f)), l, n, rest, k);
      assert fs == rest + [f];
    }
  }

  /** The removals of an update erase exactly what some removal request erases. */
  lemma RemovalsErase(t: State, l: State, n: State, k: Key)
    requires k in t ==> Persisted(k)
    ensures var t' := AfterRemovals(t, l, n);
            (k in t' <==> k in t && !Erased(l, n, k)) && (k in t' ==> t'[k] == t[k])
  {
    WithoutFamilies(t, l, n, PREFIXES, k);
    if k in t { AnyFamilyErases(l, n, k); }
  }

  lemma AnyFamilyErases(l: State, n: State, k: Key)
    requires Persisted(k)
    ensures Erased(l, n, k) <==> exists f :: f in PREFIXES && ErasedByFamily(l, n, f, k)
  {
    var ps := PREFIXES;
    assert ps[0] == SubsystemF && ps[1] == HostF && ps[2] == NamespaceF && ps[3] == QosF && ps[4] == NsHostF
             && ps[5] == ListenerF;
    var f := FamilyOf(k).value;
    assert f in PREFIXES && SubsystemF in PREFIXES && NamespaceF in PREFIXES;
    assert ErasedByFamily(l, n, f, k) || ErasedByFamily(l, n, SubsystemF, k) || ErasedByFamily(l, n, NamespaceF, k) <==>
           Erased(l, n, k);
  }

  // ----- additions -----

  predicate Adds(t: State, b: set<string>, l: State, n: State, f: Family, k: Key) {
    FamilyOf(k) == Some(f) && SentIn(l, n, k) && Accepts(t, b, k, n[k]) && AloneIn(l, n, k)
  }

  /** No other key that is sent has the name. */
  predicate AloneIn(l: State, n: State, k: Key)
    requires k in n
  {
    forall x | x in n && SentIn(l, n, x) :: !Clashes(k, n[k], x, n[x])
  }

  lemma AloneInGroup(l: State, n: State, f: Family, k: Key)
    requires !InPlaceFamily(f) && k in InGroup(l, n, f)
    ensures k in n && (Alone(InGroup(l, n, f), k) <==> AloneIn(l, n, k))
  {
    var g := InGroup(l, n, f);
    forall x | x in n && SentIn(l, n, x) && FamilyOf(x) == FamilyOf(k) ensures x in g && g[x] == n[x] {}
    forall x | FamilyOf(x) != FamilyOf(k) ensures forall w :: !Clashes(k, n[k], x, w) {}
  }

  lemma WithGroup(t: State, b: set<string>, l: State, n: State, f: Family, k: Key)
    requires !InPlaceFamily(f)
    ensures var t' := WithIn(t, b, l, n, f);
            && (k in t' <==> k in t || Adds(t, b, l, n, f, k))
            && (k in t' ==> t'[k] == if Adds(t, b, l, n, f, k) then Placed(t, k, n[k]) else t[k])
  {
    if k in InGroup(l, n, f) { AloneInGroup(l, n, f, k); }
  }

  /** What decides at a key's own turn whether its request is taken, read off the target `a` after all additions
      and, for the listeners and the names, the target `t` before them. */
  predicate Taken(t: State, b: set<string>, a: State, k: Key, v: Val) {
    match k
    case Subsystem(_) => NameFree(t, b, k, v)
    case Qos(q, i) => Namespace(q, i) in a
    case Host(q, h) =>
      && Subsystem(q) in a && v.HostVal? && KeyFits(KeyOf(a, q), h, v.dhchap)
      && (h == ANY_HOST ==> !HasSecureListener(t, q))
    case Namespace(q, i) => Subsystem(q) in a && NameFree(t, b, k, v)
    case NsHost(q, i, h) => IsHidden(a, q, i) && HostAllowed(a, q, h, v)
    case Listener(q, g, _, _, _) => Subsystem(q) in a && g == HOST_NAME && (IsSecure(v) ==> Host(q, ANY_HOST) !in a)
    case _ => false
  }

  /** The key is sent and taken. */
  predicate Goes(t: State, b: set<string>, a: State, l: State, n: State, k: Key) {
    SentIn(l, n, k) && AloneIn(l, n, k) && Taken(t, b, a, k, n[k])
  }

  /** The additions at one key. */
  predicate AddedAt(t: State, b: set<string>, a: State, l: State, n: State, k: Key) {
    && (k in a <==> k in t || Goes(t, b, a, l, n, k))
    && (k in a ==> a[k] == if Goes(t, b, a, l, n, k) && (k !in t || k.Qos?) then Placed(t, k, n[k]) else t[k])
  }

  /** Stored families other than the key's own. */
  predicate Foreign(fs: seq<Family>, k: Key) {
    forall i | 0 <= i < |fs| :: !InPlaceFamily(fs[i]) && FamilyOf(k) != Some(fs[i])
  }

  lemma {:induction false} OtherFamilies(t: State, b: set<string>, l: State, n: State, fs: seq<Family>, k: Key)
    requires Foreign(fs, k)
    ensures var t' := WithAll(t, b, l, n, fs); (k in t' <==> k in t) && (k in t ==> t'[k] == t[k])
  {
    if fs != [] {
      var f, rest := fs[|fs| - 1], fs[..|fs| - 1];
      OtherFamilies(t, b, l, n, rest, k);
      WithGroup(WithAll(t, b, l, n, rest), b, l, n, f, k);
    }
  }

  lemma {:induction false} WithAllSplit(t: State, b: set<string>, l: State, n: State, fs: seq<Family>, gs: seq<Family>)
    ensures WithAll(t, b, l, n, fs + gs) == WithAll(WithAll(t, b, l, n, fs), b, l, n, gs)
  {
    if gs == [] {
      assert fs + gs == fs;
    } else {
      assert (fs + gs)[..|fs + gs| - 1] == fs + gs[..|gs| - 1];
      WithAllSplit(t, b, l, n, fs, gs[..|gs| - 1]);
    }
  }

  function Rank(k: Key): nat
    requires Persisted(k)
  {
    match k
    case Subsystem(_) => 0
    case Host(_, _) => 1
    case Namespace(_, _) => 2
    case Qos(_, _) => 3
    case NsHost(_, _, _) => 4
    case Listener(_, _, _, _, _) => 5
  }

  lemma RankIsPlace(k: Key)
    requires Persisted(k)
    ensures Rank(k) < |PREFIXES| && Some(PREFIXES[Rank(k)]) == FamilyOf(k) && !InPlaceFamily(PREFIXES[Rank(k)])
    ensures Foreign(PREFIXES[..Rank(k)], k) && Foreign(PREFIXES[Rank(k) + 1..], k)
    ensures PREFIXES == PREFIXES[..Rank(k)] + [PREFIXES[Rank(k)]] + PREFIXES[Rank(k) + 1..]
  {
  }

  /** The target at the turn of the key's family. */
  function OwnTurn(t: State, b: set<string>, l: State, n: State, k: Key): State
    requires Persisted(k)
  {
    WithAll(t, b, l, n, PREFIXES[..Rank(k)])
  }

  /** Objects of earlier families are at the key's turn what they are after all additions. */
  lemma EarlierIsSettled(t: State, b: set<string>, l: State, n: State, k: Key, r: Key)
    requires Persisted(k) && Persisted(r) && Rank(r) < Rank(k)
    ensures var before, a := OwnTurn(t, b, l, n, k), AfterAdditions(t, b, l, n);
            (r in before <==> r in a) && (r in a ==> before[r] == a[r])
  {
    var pre, post := PREFIXES[..Rank(k)], PREFIXES[Rank(k)..];
    assert PREFIXES == pre + post;
    assert Foreign(post, r);
    WithAllSplit(t, b, l, n, pre, post);
    OtherFamilies(WithAll(t, b, l, n, pre), b, l, n, post, r);
  }

  lemma ListenersComeLast(t: State, b: set<string>, l: State, n: State, q: string, h: string)
    ensures HasSecureListener(OwnTurn(t, b, l, n, Host(q, h)), q) <==> HasSecureListener(t, q)
  {
    var before := OwnTurn(t, b, l, n, Host(q, h));
    forall k: Key | k.Listener? ensures (k in before <==> k in t) && (k in t ==> before[k] == t[k]) {
      OtherFamilies(t, b, l, n, PREFIXES[..Rank(Host(q, h))], k);
    }
    if HasSecureListener(t, q) {
      var k :| k in t && k.Listener? && k.nqn == q && IsSecure(t[k]);
      assert k in before && IsSecure(before[k]);
    }
  }

  lemma SameNames(t: State, t': State, b: set<string>, k: Key, v: Val)
    requires forall x :: ClashesAt(t', k, v, x) <==> ClashesAt(t, k, v, x)
    ensures NameFree(t', b, k, v) <==> NameFree(t, b, k, v)
  {
  }

  lemma NamesAtOwnTurn(t: State, b: set<string>, l: State, n: State, k: Key, v: Val)
    requires Persisted(k)
    ensures NameFree(OwnTurn(t, b, l, n, k), b, k, v) <==> NameFree(t, b, k, v)
  {
    var before := OwnTurn(t, b, l, n, k);
    RankIsPlace(k);
    forall x | FamilyOf(x) == FamilyOf(k) ensures (x in before <==> x in t) && (x in t ==> before[x] == t[x]) {
      OtherFamilies(t, b, l, n, PREFIXES[..Rank(k)], x);
    }
    forall x ensures ClashesAt(before, k, v, x) <==> ClashesAt(t, k, v, x) {
      if FamilyOf(x) != FamilyOf(k) { assert forall w :: !Clashes(k, v, x, w); }
    }
    SameNames(t, before, b, k, v);
  }

  lemma TakenAtOwnTurn(t: State, b: set<string>, l: State, n: State, k: Key, v: Val)
    requires Persisted(k)
    ensures var before, a := OwnTurn(t, b, l, n, k), AfterAdditions(t, b, l, n);
            (k !in before || k.Qos?) ==> (Accepts(before, b, k, v) <==> Taken(t, b, a, k, v))
  {
    match k {
      case Subsystem(_) => NamesAtOwnTurn(t, b, l, n, k, v);
      case Host(q, h) =>
        EarlierIsSettled(t, b, l, n, k, Subsystem(q));
        ListenersComeLast(t, b, l, n, q, h);
      case Namespace(q, _) =>
        EarlierIsSettled(t, b, l, n, k, Subsystem(q));
        NamesAtOwnTurn(t, b, l, n, k, v);
      case Qos(q, i) => EarlierIsSettled(t, b, l, n, k, Namespace(q, i));
      case NsHost(q, i, h) =>
        EarlierIsSettled(t, b, l, n, k, Namespace(q, i));
        EarlierIsSettled(t, b, l, n, k, Host(q, h));
        EarlierIsSettled(t, b, l, n, k, Host(q, ANY_HOST));
      case Listener(q, _, _, _, _) =>
        EarlierIsSettled(t, b, l, n, k, Subsystem(q));
        EarlierIsSettled(t, b, l, n, k, Host(q, ANY_HOST));
    }
  }

  lemma AcceptedIsNew(t: State, b: set<string>, k: Key, v: Val)
    requires Accepts(t, b, k, v) && !k.Qos?
    ensures k !in t
  {
  }

  /** Only the key's own turn changes it. */
  lemma OnlyOwnTurn(t: State, b: set<string>, l: State, n: State, k: Key)
    requires Persisted(k)
    ensures var before, a := OwnTurn(t, b, l, n, k), AfterAdditions(t, b, l, n);
            var after := WithIn(before, b, l, n, PREFIXES[Rank(k)]);
            && (k in before <==> k in t) && (k in t ==> before[k] == t[k])
            && (k in a <==> k in after) && (k in a ==> a[k] == after[k])
  {
    RankIsPlace(k);
    var pre, f, post := PREFIXES[..Rank(k)], PREFIXES[Rank(k)], PREFIXES[Rank(k) + 1..];
    var before := WithAll(t, b, l, n, pre);
    WithAllSplit(t, b, l, n, pre + [f], post);
    assert (pre + [f])[..|pre|] == pre;
    OtherFamilies(t, b, l, n, pre, k);
    OtherFamilies(WithIn(before, b, l, n, f), b, l, n, post, k);
  }

  lemma AdditionsAt(t: State, b: set<string>, l: State, n: State, k: Key)
    requires Persisted(k)
    ensures AddedAt(t, b, AfterAdditions(t, b, l, n), l, n, k)
  {
    var before, f := OwnTurn(t, b, l, n, k), PREFIXES[Rank(k)];
    RankIsPlace(k);
    OnlyOwnTurn(t, b, l, n, k);
    WithGroup(before, b, l, n, f, k);
    OwnAddition(t, b, l, n, k);
  }

  lemma OwnAddition(t: State, b: set<string>, l: State, n: State, k: Key)
    requires Persisted(k)
    ensures Adds(OwnTurn(t, b, l, n, k), b, l, n, PREFIXES[Rank(k)], k) <==>
            Goes(t, b, AfterAdditions(t, b, l, n), l, n, k) && (k !in t || k.Qos?)
  {
    RankIsPlace(k);
    OnlyOwnTurn(t, b, l, n, k);
    if SentIn(l, n, k) {
      TakenAtOwnTurn(t, b, l, n, k, n[k]);
      var before := OwnTurn(t, b, l, n, k);
      if Accepts(before, b, k, n[k]) && !k.Qos? { AcceptedIsNew(before, b, k, n[k]); }
    }
  }

  // ----- changes in place -----

  /** A made-up request applied to an object. */
  function Merge(v: Val, w: Val): Val {
    match (v, w)
    case (SubsysVal(_, s, r), SecretVal(d)) => SubsysVal(d, s, r)
    case (HostVal(_, r), SecretVal(d)) => HostVal(d, r)
    case (NsVal(_, _, _, _, _, _), LbVal(g)) => v.(grp := g)
    case (NsVal(_, _, _, _, _, _), VisVal(x)) => v.(hidden := !x)
    case (NsVal(_, _, _, _, _, _), TrashVal(t)) => v.(trash := t)
    case _ => v
  }

  function MinorValue(l: State, n: State, f: Family, k: Key, v: Val): Val {
    match MadeUp(l, n, f, k)
    case None => v
    case Some(made) => Merge(v, made.1)
  }

  function MinorsValue(l: State, n: State, fs: seq<Family>, k: Key, v: Val): Val {
    if fs == [] then v
    else MinorValue(l, n, fs[|fs| - 1], k, MinorsValue(l, n, fs[..|fs| - 1], k, v))
  }

  lemma SubjectOfMadeUp(l: State, n: State, f: Family, k: Key)
    requires MadeUp(l, n, f, k).Some?
    ensures k in l && Subject(MadeUp(l, n, f, k).value.0) == k
  {
  }

  lemma MadeUpGroup(l: State, n: State, f: Family, s: Key)
    requires InPlaceFamily(f)
    ensures var made := MadeUp(l, n, f, Subject(s)); var g := InGroup(l, n, f);
            && (s in g <==> made.Some? && made.value.0 == s)
            && (s in g ==> g[s] == made.value.1)
  {
    if s in MadeUpKeys(l, n, f) {
      var k :| k in l && MadeUp(l, n, f, k).Some? && MadeUp(l, n, f, k).value.0 == s;
      SubjectOfMadeUp(l, n, f, k);
    }
    if MadeUp(l, n, f, Subject(s)).Some? { SubjectOfMadeUp(l, n, f, Subject(s)); }
  }

  /** Request `s` is in the group exactly when it is the one made up. */
  predicate Holds(g: State, s: Key, made: Option<(Key, Val)>) {
    match made
    case None => s !in g
    case Some((s', w)) => (s in g <==> s' == s) && (s in g ==> g[s] == w)
  }

  lemma HoldsMadeUp(l: State, n: State, f: Family, s: Key)
    requires InPlaceFamily(f)
    ensures Holds(InGroup(l, n, f), s, MadeUp(l, n, f, Subject(s)))
  {
    MadeUpGroup(l, n, f, s);
  }

  predicate IsForNamespace(made: Option<(Key, Val)>, q: string, i: nat) {
    match made
    case None => true
    case Some((s, w)) =>
      || (s == LbGroup(q, i) && w.LbVal?) || (s == Visibility(q, i) && w.VisVal?)
      || (s == TrashImage(q, i) && w.TrashVal?)
  }

  lemma MadeUpForNamespace(l: State, n: State, f: Family, q: string, i: nat)
    ensures IsForNamespace(MadeUp(l, n, f, Namespace(q, i)), q, i)
  {
  }

  lemma ModifiedByOneKind(t: State, g: State, q: string, i: nat, v: Val, made: Option<(Key, Val)>)
    requires v.NsVal?
    requires Holds(g, LbGroup(q, i), made) && Holds(g, Visibility(q, i), made) && Holds(g, TrashImage(q, i), made)
    requires IsForNamespace(made, q, i)
    ensures Modified(t, g, Namespace(q, i), v) == if made.None? then v else Merge(v, made.value.1)
  {
  }

  lemma ModifiedNamespace(t: State, l: State, n: State, f: Family, q: string, i: nat, v: Val)
    requires InPlaceFamily(f) && v.NsVal?
    ensures Modified(t, InGroup(l, n, f), Namespace(q, i), v) == MinorValue(l, n, f, Namespace(q, i), v)
    ensures MinorValue(l, n, f, Namespace(q, i), v).NsVal?
  {
    HoldsMadeUp(l, n, f, LbGroup(q, i));
    HoldsMadeUp(l, n, f, Visibility(q, i));
    HoldsMadeUp(l, n, f, TrashImage(q, i));
    MadeUpForNamespace(l, n, f, q, i);
    ModifiedByOneKind(t, InGroup(l, n, f), q, i, v, MadeUp(l, n, f, Namespace(q, i)));
  }

  /** The change of a host's key, which the handler may refuse. */
  function HostStep(l: State, n: State, k: Key, v: Val, subsystemKey: string): Val {
    match (k, MadeUp(l, n, HostSecretF, k))
    case (Host(_, h), Some((_, SecretVal(d)))) => if TakesKey(subsystemKey, h, d) then Merge(v, SecretVal(d)) else v
    case _ => v
  }

  lemma ModifiedHost(t: State, l: State, n: State, f: Family, q: string, h: string, v: Val)
    requires InPlaceFamily(f) && v.HostVal?
    ensures var v' := Modified(t, InGroup(l, n, f), Host(q, h), v);
            && (f.HostSecretF? ==> v' == HostStep(l, n, Host(q, h), v, KeyOf(t, q)))
            && (!f.HostSecretF? ==> v' == v == MinorValue(l, n, f, Host(q, h), v))
  {
    MadeUpGroup(l, n, f, HostSecret(q, h));
    if !f.HostSecretF? { assert MadeUp(l, n, f, Host(q, h)).None?; }
  }

  lemma ModifiedSubsystem(t: State, l: State, n: State, f: Family, q: string, v: Val)
    requires InPlaceFamily(f) && v.SubsysVal?
    ensures Modified(t, InGroup(l, n, f), Subsystem(q), v) == MinorValue(l, n, f, Subsystem(q), v)
    ensures MinorValue(l, n, f, Subsystem(q), v).SubsysVal?
  {
    MadeUpGroup(l, n, f, SubsystemSecret(q));
  }

  lemma ModifiedIsMinor(t: State, l: State, n: State, f: Family, k: Key, v: Val)
    requires InPlaceFamily(f) && !f.HostSecretF? && Persisted(k) && Fits(k, v)
    ensures Modified(t, InGroup(l, n, f), k, v) == MinorValue(l, n, f, k, v) && Fits(k, MinorValue(l, n, f, k, v))
  {
    match k
    case Subsystem(q) => ModifiedSubsystem(t, l, n, f, q, v);
    case Host(q, h) => ModifiedHost(t, l, n, f, q, h, v);
    case Namespace(q, i) => ModifiedNamespace(t, l, n, f, q, i, v);
    case _ =>
  }

  lemma DropsWhenTurned(l: State, n: State, f: Family, k: Key)
    requires InPlaceFamily(f) && k.NsHost?
    ensures DropsHost(InGroup(l, n, f), k) <==> f.VisibilityF? && Turned(l, n, k.nqn, k.nsid, true)
  {
    MadeUpGroup(l, n, f, Visibility(k.nqn, k.nsid));
  }

  lemma WithMinor(t: State, b: set<string>, l: State, n: State, f: Family, k: Key)
    requires InPlaceFamily(f) && !f.HostSecretF? && Persisted(k) && (k in t ==> Fits(k, t[k]))
    ensures var t' := WithIn(t, b, l, n, f);
            && (k in t' <==> k in t && !(f.VisibilityF? && k.NsHost? && Turned(l, n, k.nqn, k.nsid, true)))
            && (k in t' ==> t'[k] == MinorValue(l, n, f, k, t[k]) && Fits(k, t'[k]))
  {
    if k in t { ModifiedIsMinor(t, l, n, f, k, t[k]); }
    if k.NsHost? { DropsWhenTurned(l, n, f, k); }
  }

  lemma WithHostKeys(t: State, b: set<string>, l: State, n: State, k: Key)
    requires Persisted(k) && (k in t ==> Fits(k, t[k]))
    ensures var t' := WithIn(t, b, l, n, HostSecretF);
            (k in t' <==> k in t) && (k in t' ==> t'[k] == HostStep(l, n, k, t[k], KeyOf(t, k.nqn)) && Fits(k, t'[k]))
  {
    if k.NsHost? { DropsWhenTurned(l, n, HostSecretF, k); }
    if k in t {
      match k {
        case Host(q, h) => ModifiedHost(t, l, n, HostSecretF, q, h, t[k]);
        case Subsystem(q) => ModifiedSubsystem(t, l, n, HostSecretF, q, t[k]);
        case Namespace(q, i) => ModifiedNamespace(t, l, n, HostSecretF, q, i, t[k]);
        case _ =>
      }
    }
  }

  predicate AllMinor(fs: seq<Family>) {
    forall i | 0 <= i < |fs| :: InPlaceFamily(fs[i])
  }

  lemma {:induction false} WithMinors(t: State, b: set<string>, l: State, n: State, fs: seq<Family>, k: Key)
    requires Persisted(k) && (k in t ==> Fits(k, t[k])) && AllMinor(fs) && HostSecretF !in fs
    ensures var t' := WithAll(t, b, l, n, fs);
            && (k in t' <==> k in t && !(VisibilityF in fs && k.NsHost? && Turned(l, n, k.nqn, k.nsid, true)))
            && (k in t' ==> t'[k] == MinorsValue(l, n, fs, k, t[k]) && Fits(k, t'[k]))
  {
    if fs != [] {
      var f, rest := fs[|fs| - 1], fs[..|fs| - 1];
      assert fs == rest + [f];
      WithMinors(t, b, l, n, rest, k);
      WithMinor(WithAll(t, b, l, n, rest), b, l, n, f, k);
    }
  }

  lemma MinorsStep(l: State, n: State, fs: seq<Family>, f: Family, k: Key, v: Val)
    ensures MinorsValue(l, n, fs + [f], k, v) == MinorValue(l, n, f, k, MinorsValue(l, n, fs, k, v))
  {
    assert (fs + [f])[..|fs + [f]| - 1] == fs;
  }

  lemma MinorsUnfold(l: State, n: State, k: Key, v: Val)
    ensures MinorsValue(l, n, FIRST_MINORS, k, v)
         == MinorValue(l, n, TrashImageF, k, MinorValue(l, n, VisibilityF, k,
              MinorValue(l, n, LbGroupF, k, MinorValue(l, n, SubsystemSecretF, k, v))))
  {
    var f1, f2 := [SubsystemSecretF], [SubsystemSecretF, LbGroupF];
    var f3 := [SubsystemSecretF, LbGroupF, VisibilityF];
    assert [] + [SubsystemSecretF] == f1 && f1 + [LbGroupF] == f2;
    assert f2 + [VisibilityF] == f3 && f3 + [TrashImageF] == FIRST_MINORS;
    MinorsStep(l, n, [], SubsystemSecretF, k, v);
    MinorsStep(l, n, f1, LbGroupF, k, v);
    MinorsStep(l, n, f2, VisibilityF, k, v);
    MinorsStep(l, n, f3, TrashImageF, k, v);
  }

  /** What all changes in place make of an object; host keys come last and may be refused. */
  function Changed(l: State, n: State, k: Key, v: Val, subsystemKey: string): Val {
    HostStep(l, n, k, MinorsValue(l, n, FIRST_MINORS, k, v), subsystemKey)
  }

  /** A change in place leaves the object that deleting it and adding it again would leave, except that it cannot
      change a key of the entry for all hosts, cannot take a host's key away from a subsystem that has one, and
      sets the trash flag even for an image the gateway did not create. */
  lemma InPlaceIsReAdd(l: State, n: State, k: Key, subsystemKey: string)
    requires WfState(l) && WfState(n) && InPlace(l, n, k)
    ensures Changed(l, n, k, Install(l[k]), subsystemKey) == Install(n[k]) <==>
            && (k.Host? && n[k].HostVal? ==> TakesKey(subsystemKey, k.host, n[k].dhchap))
            && (k.Namespace? && n[k].NsVal? && l[k].NsVal? && n[k].trash && !l[k].trash ==> n[k].create)
  {
    MinorsUnfold(l, n, k, Install(l[k]));
    assert Fits(k, l[k]) && Fits(k, n[k]);
    match k {
      case Namespace(_, _) => NamespaceInPlace(l, n, k);
      case Host(_, _) => HostInPlace(l, n, k, subsystemKey);
      case Subsystem(_) => SubsystemInPlace(l, n, k);
      case _ =>
    }
  }

  lemma NamespaceInPlace(l: State, n: State, k: Key)
    requires InPlace(l, n, k) && k.Namespace? && l[k].NsVal? && n[k].NsVal?
    ensures var v := Install(l[k]);
            var v1 := MinorValue(l, n, SubsystemSecretF, k, v);
            var v2 := MinorValue(l, n, LbGroupF, k, v1);
            var v3 := MinorValue(l, n, VisibilityF, k, v2);
            var v4 := MinorValue(l, n, TrashImageF, k, v3);
            v4 == Install(n[k]) <==> (n[k].trash && !l[k].trash ==> n[k].create)
  {
    var v := Install(l[k]);
    var v2 := MinorValue(l, n, LbGroupF, k, v);
    assert v2 == v.(grp := n[k].grp);
    var v3 := MinorValue(l, n, VisibilityF, k, v2);
    assert v3 == v2.(hidden := n[k].hidden);
    var v4 := MinorValue(l, n, TrashImageF, k, v3);
    assert v4 == if l[k].trash == n[k].trash then v3 else v3.(trash := n[k].trash);
  }

  lemma HostInPlace(l: State, n: State, k: Key, subsystemKey: string)
    requires InPlace(l, n, k) && k.Host? && l[k].HostVal? && n[k].HostVal?
    ensures MinorsValue(l, n, FIRST_MINORS, k, l[k]) == l[k]
    ensures HostStep(l, n, k, l[k], subsystemKey) == if TakesKey(subsystemKey, k.host, n[k].dhchap) then n[k] else l[k]
  {
    MinorsUnfold(l, n, k, l[k]);
  }

  lemma SubsystemInPlace(l: State, n: State, k: Key)
    requires InPlace(l, n, k) && k.Subsystem? && l[k].SubsysVal? && n[k].SubsysVal?
    ensures MinorsValue(l, n, FIRST_MINORS, k, l[k]) == n[k]
  {
    MinorsUnfold(l, n, k, l[k]);
  }

  lemma NothingMinor(l: State, n: State, fs: seq<Family>, k: Key, v: Val)
    requires !InPlace(l, n, k)
    ensures MinorsValue(l, n, fs, k, v) == v
  {
  }

  lemma NothingChanges(l: State, n: State, k: Key, v: Val, subsystemKey: string)
    requires !InPlace(l, n, k)
    ensures Changed(l, n, k, v, subsystemKey) == v
  {
    NothingMinor(l, n, FIRST_MINORS, k, v);
  }

  // ----- convergence -----

  /** The target after the removals of an update that starts from what the local state describes. */
  function Cleared(l: State, n: State): State {
    AfterRemovals(Installed(l), l, n)
  }

  /** And after the additions. */
  function Midway(l: State, n: State, o: set<string>): State {
    AfterAdditions(Cleared(l, n), Unowned(l, n, o), l, n)
  }

  /** And after the changes in place but those of host keys. */
  function BeforeHostKeys(l: State, n: State, o: set<string>): State {
    WithAll(Midway(l, n, o), Unowned(l, n, o), l, n, FIRST_MINORS)
  }

  function Outcome(l: State, n: State, o: set<string>): State {
    Replayed(Installed(l), o, l, n)
  }

  lemma InstalledOk(s: State)
    requires WfState(s)
    ensures TargetOk(Installed(s))
  {
    var t := Installed(s);
    forall k | k in t ensures Fits(k, t[k]) && !Moot(t, k) && (Parent(k).Some? ==> Parent(k).value in t) {
      assert Live(s, k) && Fits(k, s[k]);
      if Parent(k).Some? { assert Live(s, Parent(k).value); }
    }
  }

  lemma ClearedAt(l: State, n: State, k: Key)
    requires WfState(l) && Persisted(k)
    ensures (k in Cleared(l, n) <==> Stands(l, n, k)) && (k in Cleared(l, n) ==> Cleared(l, n)[k] == Install(l[k]))
  {
    InstalledOk(l);
    RemovalsErase(Installed(l), l, n, k);
  }

  lemma MidwayAt(l: State, n: State, o: set<string>, k: Key)
    requires WfState(l) && WfState(n) && Persisted(k)
    ensures var t, a := Cleared(l, n), Midway(l, n, o);
            && (k in a <==> Stands(l, n, k) || Goes(t, Unowned(l, n, o), a, l, n, k))
            && (k in a ==>
                  a[k] == if Goes(t, Unowned(l, n, o), a, l, n, k) && (!Stands(l, n, k) || k.Qos?)
                          then Placed(t, k, n[k]) else Install(l[k]))
            && (k in a && !Stands(l, n, k) ==> a[k] == Install(n[k]))
            && (k in a ==> Fits(k, a[k]))
  {
    ClearedAt(l, n, k);
    AdditionsAt(Cleared(l, n), Unowned(l, n, o), l, n, k);
    if k in n { PlacedFits(n, Cleared(l, n), k); }
    if k in l { PlacedFits(l, map[], k); }
  }

  lemma PlacedFits(s: State, t: State, k: Key)
    requires WfState(s) && k in s
    ensures Fits(k, s[k]) && Fits(k, Placed(t, k, s[k])) && Fits(k, Install(s[k]))
    ensures k !in t ==> Placed(t, k, s[k]) == Install(s[k])
  {
    assert WfEntry(s, k);
  }

  /** The outcome at one key. */
  lemma OutcomeAt(l: State, n: State, o: set<string>, k: Key)
    requires WfState(l) && WfState(n) && Persisted(k)
    ensures var a, c, r := Midway(l, n, o), BeforeHostKeys(l, n, o), Outcome(l, n, o);
            && (k in r <==> k in a && !(k.NsHost? && Turned(l, n, k.nqn, k.nsid, true)))
            && (k in c <==> k in r) && (k in c ==> c[k] == MinorsValue(l, n, FIRST_MINORS, k, a[k]))
            && (k in r ==> r[k] == Changed(l, n, k, a[k], KeyOf(c, k.nqn)))
  {
    var a, b, c := Midway(l, n, o), Unowned(l, n, o), BeforeHostKeys(l, n, o);
    UnownedAfter(l, n, o);
    MidwayAt(l, n, o, k);
    assert FIRST_MINORS[2] == VisibilityF;
    WithMinors(a, b, l, n, FIRST_MINORS, k);
    WithHostKeys(c, b, l, n, k);
    WithAllSplit(a, b, l, n, FIRST_MINORS, [HostSecretF]);
    LastOfOne(c, b, l, n, HostSecretF);
  }

  lemma LastOfOne(t: State, b: set<string>, l: State, n: State, f: Family)
    ensures WithAll(t, b, l, n, [f]) == WithIn(t, b, l, n, f)
  {
    assert [f][..0] == [];
  }

  /** Only the removal of subsystems leaves block devices behind. */
  lemma {:induction false} OthersLeaveNothing(t: State, b: set<string>, l: State, n: State, fs: seq<Family>)
    requires SubsystemF !in fs
    ensures UnusedAfter(t, b, l, n, fs) == b
  {
    if fs != [] {
      var f, rest := fs[|fs| - 1], fs[..|fs| - 1];
      assert f in fs && Unused(t, OutGroup(l, n, f)) == {};
      OthersLeaveNothing(Without(t, OutGroup(l, n, f)), b, l, n, rest);
      assert b + {} == b;
    }
  }

  /** It is the last one. */
  lemma {:induction false} SubsystemsComeLast(t: State, b: set<string>, l: State, n: State, fs: seq<Family>)
    requires SubsystemF !in fs
    ensures UnusedAfter(t, b, l, n, [SubsystemF] + fs)
         == b + Unused(WithoutAll(t, l, n, fs), OutGroup(l, n, SubsystemF))
  {
    var all := [SubsystemF] + fs;
    if fs == [] {
      assert all[..0] == [];
    } else {
      var f, rest := fs[|fs| - 1], fs[..|fs| - 1];
      assert all[..|all| - 1] == [SubsystemF] + rest && all[|all| - 1] == f;
      assert f in fs && Unused(t, OutGroup(l, n, f)) == {};
      assert b + {} == b;
      SubsystemsComeLast(Without(t, OutGroup(l, n, f)), b, l, n, rest);
    }
  }

  lemma NamespaceBeforeSubsystems(l: State, n: State, k: Key)
    requires WfState(l) && k.Namespace?
    ensures var t := WithoutAll(Installed(l), l, n, PREFIXES[1..]);
            && (k in t <==> k in l && !SentOut(l, n, k))
            && (k in t ==> t[k].NsVal? && l[k].NsVal? && t[k].uuid == l[k].uuid)
  {
    var fs := PREFIXES[1..];
    WithoutFamilies(Installed(l), l, n, fs, k);
    assert fs[1] == NamespaceF && SubsystemF !in fs;
    assert ErasedByFamily(l, n, NamespaceF, k) <==> SentOut(l, n, k);
    forall f | f in fs && f != NamespaceF ensures !ErasedByFamily(l, n, f, k) {}
    if k in l { assert Live(l, k) && Fits(k, l[k]); }
  }

  lemma UnownedAfter(l: State, n: State, o: set<string>)
    requires WfState(l)
    ensures UnusedAfter(Installed(l), o, l, n, PREFIXES) == Unowned(l, n, o)
  {
    var fs := PREFIXES[1..];
    var t, g := WithoutAll(Installed(l), l, n, fs), OutGroup(l, n, SubsystemF);
    assert PREFIXES == [SubsystemF] + fs;
    SubsystemsComeLast(Installed(l), o, l, n, fs);
    forall k: Key | k.Namespace?
      ensures k in t <==> k in l && !SentOut(l, n, k)
      ensures k in t ==> t[k].NsVal? && l[k].NsVal? && t[k].uuid == l[k].uuid
    { NamespaceBeforeSubsystems(l, n, k); }
    forall q ensures Subsystem(q) in g <==> SentOut(l, n, Subsystem(q)) {
      OutGroupHolds(l, n, SubsystemF, Subsystem(q));
    }
    assert Unused(t, g) == LeftBehind(l, n);
  }

  lemma SentOrSame(l: State, n: State, k: Key)
    requires k in l && k in n && Persisted(k)
    ensures SentIn(l, n, k) <==> l[k] != n[k] && !InPlace(l, n, k)
    ensures SentIn(l, n, k) ==> SentOut(l, n, k)
  {
  }

  /** What is sent does not stand, except for QoS limits. */
  lemma SentNotStanding(l: State, n: State, k: Key)
    requires Persisted(k) && !k.Qos? && SentIn(l, n, k)
    ensures !Stands(l, n, k)
  {
    if k in l { SentOrSame(l, n, k); }
  }

  /** What stands and is wanted has its new value already or changes in place. */
  lemma StandingValue(l: State, n: State, k: Key)
    requires Persisted(k) && !k.Qos? && Stands(l, n, k) && k in n
    ensures l[k] == n[k] || InPlace(l, n, k)
  {
    SentOrSame(l, n, k);
  }

  lemma SubsystemMidway(l: State, n: State, o: set<string>, q: string)
    requires WfState(l) && WfState(n) && Subsystem(q) in n && Subsystem(q) in Midway(l, n, o)
    ensures KeyOf(Midway(l, n, o), q) == MidKey(l, n, q)
    ensures KeyOf(BeforeHostKeys(l, n, o), q) == KeyOf(n, q)
  {
    var s := Subsystem(q);
    MidwayAt(l, n, o, s);
    OutcomeAt(l, n, o, s);
    assert Fits(s, n[s]) && (s in l ==> Fits(s, l[s]));
    if SentIn(l, n, s) {
      SentNotStanding(l, n, s);
      if s in l { SentOrSame(l, n, s); }
    } else {
      StandingValue(l, n, s);
    }
    if InPlace(l, n, s) {
      SubsystemInPlace(l, n, s);
    } else {
      NothingMinor(l, n, FIRST_MINORS, s, Midway(l, n, o)[s]);
    }
  }

  /** A namespace that is in the shared state is in the target before the changes in place, hidden as in the
      shared state unless just that changes in place. */
  lemma NamespaceMidway(l: State, n: State, o: set<string>, q: string, i: nat)
    requires WfState(l) && WfState(n) && Namespace(q, i) in n && Namespace(q, i) in Midway(l, n, o)
    ensures var ns := Namespace(q, i); var a := Midway(l, n, o);
            && a[ns].NsVal? && n[ns].NsVal?
            && (a[ns].hidden == n[ns].hidden || Turned(l, n, q, i, true) || Turned(l, n, q, i, false))
  {
    var ns := Namespace(q, i);
    MidwayAt(l, n, o, ns);
    assert Fits(ns, n[ns]);
    if ns in l {
      assert Fits(ns, l[ns]);
      SentOrSame(l, n, ns);
    }
  }

  /** On a complete and admitted pair no secure listener stands where the entry for all hosts is sent. */
  lemma NoSecureStanding(l: State, n: State, q: string)
    requires WfState(l) && WfState(n) && Complete(l, n) && Admitted(l, n)
    requires Host(q, ANY_HOST) in n && SentIn(l, n, Host(q, ANY_HOST))
    ensures !HasSecureListener(Cleared(l, n), q)
  {
    if HasSecureListener(Cleared(l, n), q) {
      var k :| k in Cleared(l, n) && k.Listener? && k.nqn == q && IsSecure(Cleared(l, n)[k]);
      ClearedAt(l, n, k);
      assert Live(n, k);
      StandingValue(l, n, k);
    }
  }

  /** What stands and is wanted has its name already. */
  lemma StandingName(l: State, n: State, k: Key, v: Val, x: Key)
    requires WfState(l) && WfState(n) && Stands(l, n, x) && x in n
    ensures Clashes(k, v, x, Install(l[x])) <==> Clashes(k, v, x, n[x])
  {
    if !x.Qos? { StandingValue(l, n, x); }
  }

  /** On a complete pair of states, nothing that stands has the name of a live key that is sent. */
  lemma NamesFree(l: State, n: State, o: set<string>, k: Key)
    requires WfState(l) && WfState(n) && Complete(l, n) && Named(l, n, o) && Live(n, k) && SentIn(l, n, k)
    ensures NameFree(Cleared(l, n), Unowned(l, n, o), k, n[k]) && AloneIn(l, n, k)
  {
    var t := Cleared(l, n);
    forall x | x in t ensures !Clashes(k, n[k], x, t[x]) {
      if x.Subsystem? || x.Namespace? {
        ClearedAt(l, n, x);
        assert Live(n, x);
        StandingName(l, n, k, n[k], x);
      }
    }
  }

  /** So the subsystems and namespaces of the shared state are there before the changes in place. */
  lemma NamedArrives(l: State, n: State, o: set<string>, k: Key)
    requires WfState(l) && WfState(n) && Complete(l, n) && Named(l, n, o) && k in n && (k.Subsystem? || k.Namespace?)
    ensures k in Midway(l, n, o)
    decreases k.Namespace?
  {
    assert Live(n, k);
    MidwayAt(l, n, o, k);
    if SentIn(l, n, k) { NamesFree(l, n, o, k); }
    if k.Namespace? {
      assert Parent(k).value in n;
      NamedArrives(l, n, o, Subsystem(k.nqn));
    }
  }

  lemma HostMidway(l: State, n: State, o: set<string>, q: string, h: string)
    requires WfState(l) && WfState(n) && Complete(l, n) && Admitted(l, n) && Named(l, n, o)
    ensures Host(q, h) in n <==> Host(q, h) in Midway(l, n, o)
  {
    var k := Host(q, h);
    MidwayAt(l, n, o, k);
    if k in n {
      assert Live(n, k) && Parent(k).value in n;
      NamedArrives(l, n, o, Subsystem(q));
      SubsystemMidway(l, n, o, q);
      if SentIn(l, n, k) && h == ANY_HOST { NoSecureStanding(l, n, q); }
    }
  }

  /** On a complete and admitted pair of states the additions of live keys are accepted. */
  lemma LiveTaken(l: State, n: State, o: set<string>, k: Key)
    requires WfState(l) && WfState(n) && Complete(l, n) && Admitted(l, n) && Named(l, n, o)
    requires Live(n, k) && SentIn(l, n, k)
    ensures Goes(Cleared(l, n), Unowned(l, n, o), Midway(l, n, o), l, n, k)
  {
    assert Wf(k) && Fits(k, n[k]) && (Parent(k).Some? ==> Parent(k).value in n);
    if !k.Subsystem? {
      var p := Parent(k).value;
      assert p.Namespace? ==> Parent(p).value in n;
      NamedArrives(l, n, o, Subsystem(k.nqn));
      SubsystemMidway(l, n, o, k.nqn);
      if p.Namespace? {
        NamedArrives(l, n, o, p);
        NamespaceMidway(l, n, o, k.nqn, k.nsid);
      }
    }
    NamesFree(l, n, o, k);
    match k {
      case Host(q, h) => if h == ANY_HOST { NoSecureStanding(l, n, q); }
      case NsHost(q, _, h) =>
        HostMidway(l, n, o, q, h);
        HostMidway(l, n, o, q, ANY_HOST);
      case Listener(q, _, _, _, _) => HostMidway(l, n, o, q, ANY_HOST);
      case _ =>
    }
  }

  /** On a clean pair of states every live key arrives. */
  lemma LiveArrives(l: State, n: State, o: set<string>, k: Key)
    requires WfState(l) && WfState(n) && Clean(l, n, o) && Live(n, k)
    ensures k in Midway(l, n, o) && k in Outcome(l, n, o)
  {
    if SentIn(l, n, k) { LiveTaken(l, n, o, k); }
    MidwayAt(l, n, o, k);
    OutcomeAt(l, n, o, k);
  }

  /** A host of a namespace visible to all is not taken, or goes when the namespace turns visible. */
  lemma MootGoes(l: State, n: State, o: set<string>, k: Key)
    requires WfState(l) && WfState(n) && Clean(l, n, o) && k.NsHost? && k in n && Moot(n, k) && !Stands(l, n, k)
    ensures k !in Outcome(l, n, o)
  {
    var ns := Namespace(k.nqn, k.nsid);
    MidwayAt(l, n, o, k);
    OutcomeAt(l, n, o, k);
    assert Parent(k).value in n;
    NamedArrives(l, n, o, ns);
    NamespaceMidway(l, n, o, k.nqn, k.nsid);
  }

  lemma StandingIsLive(l: State, n: State, o: set<string>, k: Key)
    requires WfState(l) && WfState(n) && Clean(l, n, o) && Stands(l, n, k) && k in Outcome(l, n, o)
    ensures Live(n, k)
  {
    OutcomeAt(l, n, o, k);
    assert Live(l, k) && !Erased(l, n, k);
  }

  /** On a clean pair of states nothing else is left. */
  lemma OnlyLiveArrives(l: State, n: State, o: set<string>, k: Key)
    requires WfState(l) && WfState(n) && Clean(l, n, o) && Persisted(k) && k in Outcome(l, n, o)
    ensures Live(n, k)
  {
    if Stands(l, n, k) {
      StandingIsLive(l, n, o, k);
    } else {
      OutcomeAt(l, n, o, k);
      SentIsLive(l, n, o, k);
      if !Live(n, k) { MootGoes(l, n, o, k); }
    }
  }

  lemma SentIsLive(l: State, n: State, o: set<string>, k: Key)
    requires WfState(l) && WfState(n) && Persisted(k) && k in Midway(l, n, o) && !Stands(l, n, k)
    ensures Live(n, k) || (k.NsHost? && k in n && Moot(n, k))
  {
    MidwayAt(l, n, o, k);
  }

  /** Limits that are sent on top of others come out as sent exactly when they name them all. */
  lemma LimitsOnTop(old_: Limits, new_: Limits)
    ensures OnTop(OnTop(NO_LIMITS, old_), new_) == OnTop(NO_LIMITS, new_) <==> KeepsNone(old_, new_)
  {
  }

  lemma LimitsAgain(l: State, n: State, k: Key)
    requires WfState(l) && WfState(n) && Stands(l, n, k) && k.Qos? && SentIn(l, n, k)
    ensures l[k].QosVal? && n[k].QosVal?
    ensures Placed(Cleared(l, n), k, n[k]) == QosVal(OnTop(OnTop(NO_LIMITS, l[k].limits), n[k].limits), n[k].rest)
    ensures Placed(Cleared(l, n), k, n[k]) == Install(n[k]) <==> KeepsNone(l[k].limits, n[k].limits)
  {
    assert Fits(k, l[k]) && Fits(k, n[k]);
    ClearedAt(l, n, k);
    LimitsOnTop(l[k].limits, n[k].limits);
  }

  /** Before the changes in place, a live key has its new value or, if it changes in place, its old one. */
  lemma MidwayValue(l: State, n: State, o: set<string>, k: Key)
    requires WfState(l) && WfState(n) && Clean(l, n, o) && Live(n, k)
    ensures k in Midway(l, n, o) && Midway(l, n, o)[k] == Install(if InPlace(l, n, k) then l[k] else n[k])
  {
    LiveArrives(l, n, o, k);
    MidwayAt(l, n, o, k);
    if k in l { SentOrSame(l, n, k); }
    if SentIn(l, n, k) {
      LiveTaken(l, n, o, k);
      if Stands(l, n, k) && k.Qos? { LimitsAgain(l, n, k); }
    }
  }

  lemma ArrivesEqual(l: State, n: State, o: set<string>, k: Key)
    requires WfState(l) && WfState(n) && Clean(l, n, o) && Live(n, k)
    ensures k in Outcome(l, n, o) && Outcome(l, n, o)[k] == Install(n[k])
  {
    var key := KeyOf(BeforeHostKeys(l, n, o), k.nqn);
    LiveArrives(l, n, o, k);
    MidwayValue(l, n, o, k);
    OutcomeAt(l, n, o, k);
    if InPlace(l, n, k) {
      InPlaceIsReAdd(l, n, k, key);
      if k.Host? {
        assert Parent(k).value in n;
        NamedArrives(l, n, o, Subsystem(k.nqn));
        SubsystemMidway(l, n, o, k.nqn);
      }
    } else {
      NothingChanges(l, n, k, Midway(l, n, o)[k], key);
    }
  }

  lemma {:induction false} OnlyStoredObjects(t: State, b: set<string>, l: State, n: State, fs: seq<Family>)
    requires forall k | k in t :: Persisted(k)
    ensures forall k | k in WithAll(t, b, l, n, fs) :: Persisted(k)
  {
    if fs != [] {
      OnlyStoredObjects(t, b, l, n, fs[..|fs| - 1]);
      OnlyStoredStep(WithAll(t, b, l, n, fs[..|fs| - 1]), b, fs[|fs| - 1], InGroup(l, n, fs[|fs| - 1]));
    }
  }

  lemma OnlyStoredStep(t: State, b: set<string>, f: Family, g: State)
    requires forall k | k in t :: Persisted(k)
    ensures forall k | k in With(t, b, f, g) :: Persisted(k)
  {
  }

  lemma OutcomeIsStored(l: State, n: State, o: set<string>)
    requires WfState(l)
    ensures forall k | k in Outcome(l, n, o) :: Persisted(k)
  {
    var t := Installed(l);
    var t1 := AfterRemovals(t, l, n);
    UnownedAfter(l, n, o);
    forall k | k in t1 ensures Persisted(k) { RemovedIsSmaller(t, l, n, PREFIXES, k); }
    OnlyStoredObjects(t1, Unowned(l, n, o), l, n, PREFIXES);
    OnlyStoredObjects(AfterAdditions(t1, Unowned(l, n, o), l, n), Unowned(l, n, o), l, n, MINOR_PREFIXES);
  }

  lemma {:induction false} RemovedIsSmaller(t: State, l: State, n: State, fs: seq<Family>, k: Key)
    requires k in WithoutAll(t, l, n, fs)
    ensures k in t
  {
    if fs != [] { RemovedIsSmaller(Without(t, OutGroup(l, n, fs[|fs| - 1])), l, n, fs[..|fs| - 1], k); }
  }

  lemma CleanConverges(l: State, n: State, o: set<string>)
    requires WfState(l) && WfState(n) && Clean(l, n, o)
    ensures Outcome(l, n, o) == Installed(n)
  {
    OutcomeIsStored(l, n, o);
    InstalledIsStored(n);
    forall k | Persisted(k) ensures SameAt(Outcome(l, n, o), Installed(n), k) { CleanAt(l, n, o, k); }
    EqualStates(Outcome(l, n, o), Installed(n));
  }

  predicate SameAt(r: State, g: State, k: Key) {
    (k in r <==> k in g) && (k in g ==> r[k] == g[k])
  }

  lemma InstalledIsStored(s: State)
    ensures forall k | k in Installed(s) :: Persisted(k)
  {
  }

  lemma EqualStates(r: State, g: State)
    requires (forall k | k in r :: Persisted(k)) && (forall k | k in g :: Persisted(k))
    requires forall k | Persisted(k) :: SameAt(r, g, k)
    ensures r == g
  {
    forall k ensures SameAt(r, g, k) {}
  }

  lemma CleanAt(l: State, n: State, o: set<string>, k: Key)
    requires WfState(l) && WfState(n) && Clean(l, n, o) && Persisted(k)
    ensures SameAt(Outcome(l, n, o), Installed(n), k)
  {
    if k in Outcome(l, n, o) { OnlyLiveArrives(l, n, o, k); }
    if Live(n, k) { ArrivesEqual(l, n, o, k); }
  }

  /** The update has brought the target to the shared state. */
  ghost predicate Converged(l: State, n: State, o: set<string>) {
    WfState(l) && WfState(n) && Outcome(l, n, o) == Installed(n)
  }

  lemma ConvergedAt(l: State, n: State, o: set<string>, k: Key)
    requires Converged(l, n, o) && Persisted(k)
    ensures k in Outcome(l, n, o) <==> Live(n, k)
    ensures Live(n, k) ==> Outcome(l, n, o)[k] == Install(n[k])
  {
    assert k in Installed(n) <==> Live(n, k);
  }

  lemma ConvergedCompletes(l: State, n: State, o: set<string>, k: Key)
    requires Converged(l, n, o)
    ensures Live(l, k) && !Live(n, k) ==> Erased(l, n, k) || (k.NsHost? && Turned(l, n, k.nqn, k.nsid, true))
    ensures Live(n, k) ==> Stands(l, n, k) || SentIn(l, n, k)
  {
    if Persisted(k) {
      ConvergedAt(l, n, o, k);
      MidwayAt(l, n, o, k);
      OutcomeAt(l, n, o, k);
    }
  }

  /** A live key that is sent was taken. */
  lemma ConvergedTakes(l: State, n: State, o: set<string>, k: Key)
    requires Converged(l, n, o) && Live(n, k) && SentIn(l, n, k) && !k.Qos?
    ensures Goes(Cleared(l, n), Unowned(l, n, o), Midway(l, n, o), l, n, k)
  {
    ConvergedAt(l, n, o, k);
    MidwayAt(l, n, o, k);
    OutcomeAt(l, n, o, k);
    SentNotStanding(l, n, k);
  }

  lemma ConvergedHosts(l: State, n: State, o: set<string>, q: string, h: string)
    requires Converged(l, n, o)
    ensures Host(q, h) in Midway(l, n, o) <==> Host(q, h) in n
  {
    ConvergedAt(l, n, o, Host(q, h));
    OutcomeAt(l, n, o, Host(q, h));
  }

  lemma ConvergedSubsystem(l: State, n: State, o: set<string>, k: Key)
    requires Converged(l, n, o) && k in n && Persisted(k)
    ensures Subsystem(k.nqn) in n && Subsystem(k.nqn) in Midway(l, n, o)
  {
    ParentsStay(l, n, k);
    ConvergedAt(l, n, o, Subsystem(k.nqn));
    OutcomeAt(l, n, o, Subsystem(k.nqn));
  }

  lemma ConvergedKeys(l: State, n: State, o: set<string>, k: Key)
    requires Converged(l, n, o) && k in n && k.Host? && SentIn(l, n, k)
    ensures n[k].HostVal? && KeyFits(MidKey(l, n, k.nqn), k.host, n[k].dhchap)
  {
    assert Live(n, k);
    ConvergedTakes(l, n, o, k);
    ConvergedSubsystem(l, n, o, k);
    SubsystemMidway(l, n, o, k.nqn);
  }

  lemma ConvergedListeners(l: State, n: State, o: set<string>, k: Key)
    requires Converged(l, n, o) && Live(n, k) && k.Listener? && IsSecure(n[k]) && Host(k.nqn, ANY_HOST) in n
    ensures !SentIn(l, n, k) && !SentIn(l, n, Host(k.nqn, ANY_HOST))
  {
    var h := Host(k.nqn, ANY_HOST);
    ConvergedHosts(l, n, o, k.nqn, ANY_HOST);
    if SentIn(l, n, k) { ConvergedTakes(l, n, o, k); }
    if SentIn(l, n, h) && !SentIn(l, n, k) {
      ListenerStands(l, n, o, k);
      assert Live(n, h);
      ConvergedTakes(l, n, o, h);
    }
  }

  lemma ListenerStands(l: State, n: State, o: set<string>, k: Key)
    requires Converged(l, n, o) && Live(n, k) && k.Listener? && IsSecure(n[k]) && !SentIn(l, n, k)
    ensures HasSecureListener(Cleared(l, n), k.nqn)
  {
    ConvergedCompletes(l, n, o, k);
    ClearedAt(l, n, k);
    StandingValue(l, n, k);
    assert k in Cleared(l, n) && IsSecure(Cleared(l, n)[k]);
  }

  lemma ConvergedNsHosts(l: State, n: State, o: set<string>, k: Key)
    requires Converged(l, n, o) && Live(n, k) && k.NsHost? && SentIn(l, n, k)
    ensures HostAllowed(n, k.nqn, k.host, n[k])
  {
    ConvergedTakes(l, n, o, k);
    ConvergedHosts(l, n, o, k.nqn, k.host);
    ConvergedHosts(l, n, o, k.nqn, ANY_HOST);
  }

  lemma ConvergedHides(l: State, n: State, o: set<string>, k: Key)
    requires Converged(l, n, o) && k in n && k.NsHost?
    ensures !Turned(l, n, k.nqn, k.nsid, false)
  {
    if Turned(l, n, k.nqn, k.nsid, false) {
      assert Live(n, k);
      ConvergedAt(l, n, o, k);
      HidingLosesHosts(l, n, o, k);
    }
  }

  lemma ConvergedInPlace(l: State, n: State, o: set<string>, k: Key)
    requires Converged(l, n, o) && InPlace(l, n, k)
    ensures k.Namespace? && l[k].NsVal? && n[k].NsVal? && n[k].trash && !l[k].trash ==> n[k].create
    ensures k.Host? && n[k].HostVal? ==> TakesKey(KeyOf(n, k.nqn), k.host, n[k].dhchap)
  {
    assert Fits(k, l[k]) && Fits(k, n[k]);
    assert Live(n, k);
    ConvergedAt(l, n, o, k);
    MidwayAt(l, n, o, k);
    OutcomeAt(l, n, o, k);
    SentOrSame(l, n, k);
    InPlaceIsReAdd(l, n, k, KeyOf(BeforeHostKeys(l, n, o), k.nqn));
    if k.Host? {
      ConvergedSubsystem(l, n, o, k);
      SubsystemMidway(l, n, o, k.nqn);
    }
  }

  /** Replay converges exactly on the clean pairs: starting from a target that agrees with the local state, the
      requests of an update leave a target that agrees with the shared state if and only if the pair is clean. */
  lemma ReplayConverges(l: State, n: State, o: set<string>)
    requires WfState(l) && WfState(n)
    ensures Replayed(Installed(l), o, l, n) == Installed(n) <==> Clean(l, n, o)
  {
    if Clean(l, n, o) { CleanConverges(l, n, o); }
    if Converged(l, n, o) {
      ConvergedIsComplete(l, n, o);
      ConvergedIsAdmitted(l, n, o);
      ConvergedIsNamed(l, n, o);
      ConvergedIsSettled(l, n, o);
    }
  }

  lemma ConvergedNames(l: State, n: State, o: set<string>, k: Key)
    requires Converged(l, n, o) && k in n && SentIn(l, n, k)
    ensures forall x | x in n :: !Clashes(k, n[k], x, n[x])
    ensures k.Namespace? && n[k].NsVal? ==> n[k].uuid !in Unowned(l, n, o)
  {
    if k.Subsystem? || k.Namespace? {
      assert Live(n, k);
      ConvergedTakes(l, n, o, k);
      forall x | x in n ensures !Clashes(k, n[k], x, n[x]) {
        if x.Subsystem? || x.Namespace? {
          assert Live(n, x);
          ConvergedCompletes(l, n, o, x);
          if !SentIn(l, n, x) {
            ClearedAt(l, n, x);
            StandingName(l, n, k, n[k], x);
          }
        }
      }
    }
  }

  lemma ConvergedLimits(l: State, n: State, o: set<string>, k: Key)
    requires Converged(l, n, o) && k.Qos? && Stands(l, n, k) && SentIn(l, n, k)
    ensures l[k].QosVal? && n[k].QosVal? && KeepsNone(l[k].limits, n[k].limits)
  {
    assert Live(n, k);
    ParentsStay(l, n, k);
    ConvergedAt(l, n, o, k);
    ConvergedAt(l, n, o, Namespace(k.nqn, k.nsid));
    UnnamedLimitsStay(l, n, o, k);
  }

  lemma ConvergedIsNamed(l: State, n: State, o: set<string>)
    requires Converged(l, n, o)
    ensures Named(l, n, o)
  {
    forall k | k in n && SentIn(l, n, k)
      ensures forall x | x in n :: !Clashes(k, n[k], x, n[x])
      ensures k.Namespace? && n[k].NsVal? ==> n[k].uuid !in Unowned(l, n, o)
    { ConvergedNames(l, n, o, k); }
  }

  lemma ConvergedIsComplete(l: State, n: State, o: set<string>)
    requires Converged(l, n, o)
    ensures Complete(l, n)
  {
    forall k
      ensures Live(l, k) && !Live(n, k) ==> Erased(l, n, k) || (k.NsHost? && Turned(l, n, k.nqn, k.nsid, true))
      ensures Live(n, k) ==> Stands(l, n, k) || SentIn(l, n, k)
    { ConvergedCompletes(l, n, o, k); }
  }

  lemma ConvergedIsSettled(l: State, n: State, o: set<string>)
    requires Converged(l, n, o)
    ensures Settled(l, n)
  {
    forall k | InPlace(l, n, k)
      ensures k.Namespace? && l[k].NsVal? && n[k].NsVal? && n[k].trash && !l[k].trash ==> n[k].create
      ensures k.Host? && n[k].HostVal? ==> TakesKey(KeyOf(n, k.nqn), k.host, n[k].dhchap)
    { ConvergedInPlace(l, n, o, k); }
    forall k: Key | k.Qos? && Stands(l, n, k) && SentIn(l, n, k)
      ensures l[k].QosVal? && n[k].QosVal? ==> KeepsNone(l[k].limits, n[k].limits)
    { ConvergedLimits(l, n, o, k); }
  }

  lemma ConvergedIsAdmitted(l: State, n: State, o: set<string>)
    requires Converged(l, n, o)
    ensures Admitted(l, n)
  {
    forall k | k in n && k.Host? && SentIn(l, n, k)
      ensures n[k].HostVal? && KeyFits(MidKey(l, n, k.nqn), k.host, n[k].dhchap)
    { ConvergedKeys(l, n, o, k); }
    forall k | Live(n, k) && k.Listener? && IsSecure(n[k]) && Host(k.nqn, ANY_HOST) in n
      ensures !SentIn(l, n, k) && !SentIn(l, n, Host(k.nqn, ANY_HOST))
    { ConvergedListeners(l, n, o, k); }
    forall k | Live(n, k) && k.NsHost? && SentIn(l, n, k) ensures HostAllowed(n, k.nqn, k.host, n[k]) {
      ConvergedNsHosts(l, n, o, k);
    }
    forall k | k in n && k.NsHost? ensures !Turned(l, n, k.nqn, k.nsid, false) { ConvergedHides(l, n, o, k); }
  }

  // ----- what the condition means -----

  /** No family has re-added keys together with removed or new ones. */
  predicate NoCollision(l: State, n: State) {
    && (forall k | k in l && Persisted(k) && Removed(l, n, k) :: !Busy(l, n, FamilyOf(k)))
    && (forall k | k in n && Persisted(k) && Added(l, n, k) :: !Busy(l, n, FamilyOf(k)))
  }

  /** No object that only stays or changes in place lies below one that is deleted and added again. */
  ghost predicate NothingKeptBelow(l: State, n: State) {
    forall p, k | ReAdded(l, n, p) && Live(n, k) && k in l && !ReAdded(l, n, k) && k != p :: !Erases(p, k)
  }

  /** QoS limits only go together with their namespace. */
  ghost predicate LimitsGoAlong(l: State, n: State) {
    forall k: Key | k.Qos? && Removed(l, n, k) ::
      Removed(l, n, Namespace(k.nqn, k.nsid)) || ReAdded(l, n, Namespace(k.nqn, k.nsid))
  }

  lemma ParentsStay(l: State, n: State, k: Key)
    requires WfState(n) && k in n && Persisted(k)
    ensures Subsystem(k.nqn) in n && (k.Qos? || k.NsHost? ==> Namespace(k.nqn, k.nsid) in n)
  {
    if Parent(k).Some? { assert Parent(k).value in n; }
    if k.Qos? || k.NsHost? { assert Parent(Namespace(k.nqn, k.nsid)).value in n; }
  }

  /** A live object that is kept in both states stands through the removals. */
  lemma KeptStands(l: State, n: State, k: Key)
    requires WfState(l) && WfState(n) && Admitted(l, n) && NothingKeptBelow(l, n)
    requires Live(n, k) && k in l && !ReAdded(l, n, k)
    ensures Stands(l, n, k)
  {
    ParentsStay(l, n, k);
    var s := Subsystem(k.nqn);
    assert ReAdded(l, n, s) && k != s ==> !Erases(s, k);
    if k.Qos? || k.NsHost? {
      var ns := Namespace(k.nqn, k.nsid);
      assert ReAdded(l, n, ns) ==> !Erases(ns, k);
      assert Parent(k).value in l;
      if k.NsHost? { assert !Turned(l, n, k.nqn, k.nsid, false) && Fits(ns, n[ns]) && Fits(ns, l[ns]); }
    }
  }

  /** What is live no more is erased, or is a host of a namespace that turns visible. */
  lemma GoneIsErased(l: State, n: State, k: Key)
    requires WfState(l) && WfState(n) && NoCollision(l, n) && LimitsGoAlong(l, n) && Live(l, k) && !Live(n, k)
    ensures Erased(l, n, k) || (k.NsHost? && Turned(l, n, k.nqn, k.nsid, true))
  {
    if k.Qos? || k.NsHost? {
      var ns := Namespace(k.nqn, k.nsid);
      assert Parent(k).value in l && Fits(ns, l[ns]) && (ns in n ==> Fits(ns, n[ns]));
    }
  }

  lemma SimpleIsComplete(l: State, n: State)
    requires WfState(l) && WfState(n) && NoCollision(l, n) && Admitted(l, n) && NothingKeptBelow(l, n)
               && LimitsGoAlong(l, n)
    ensures Complete(l, n)
  {
    forall k
      ensures Live(l, k) && !Live(n, k) ==> Erased(l, n, k) || (k.NsHost? && Turned(l, n, k.nqn, k.nsid, true))
      ensures Live(n, k) ==> Stands(l, n, k) || SentIn(l, n, k)
    {
      if Live(l, k) && !Live(n, k) { GoneIsErased(l, n, k); }
      if Live(n, k) && k in l && !ReAdded(l, n, k) { KeptStands(l, n, k); }
    }
  }

  lemma CompleteKeepsNothingBelow(l: State, n: State)
    requires Complete(l, n)
    ensures NothingKeptBelow(l, n)
  {
    forall p, k | ReAdded(l, n, p) && Live(n, k) && k in l && !ReAdded(l, n, k) && k != p ensures !Erases(p, k) {
      assert Stands(l, n, k) || SentIn(l, n, k);
    }
  }

  lemma CompleteTakesLimitsAlong(l: State, n: State)
    requires WfState(l) && WfState(n) && Complete(l, n)
    ensures LimitsGoAlong(l, n)
  {
    CompleteKeepsNothingBelow(l, n);
    forall k: Key | k.Qos? && Removed(l, n, k)
      ensures Removed(l, n, Namespace(k.nqn, k.nsid)) || ReAdded(l, n, Namespace(k.nqn, k.nsid))
    {
      var ns, s := Namespace(k.nqn, k.nsid), Subsystem(k.nqn);
      assert Live(l, k) && !Live(n, k) && Parent(k).value in l;
      assert Erased(l, n, k);
      if ns in n {
        ParentsStay(l, n, ns);
        assert Live(n, ns);
        assert ReAdded(l, n, s) && !ReAdded(l, n, ns) ==> !Erases(s, ns);
      }
    }
  }

  /** Without collisions no block device stays without a namespace. */
  lemma NothingLeftBehind(l: State, n: State, o: set<string>)
    requires WfState(l) && WfState(n) && NoCollision(l, n) && NothingKeptBelow(l, n)
    ensures Unowned(l, n, o) == o
  {
    forall k | k in l && k.Namespace? && SentOut(l, n, Subsystem(k.nqn)) ensures SentOut(l, n, k) {
      var s := Subsystem(k.nqn);
      if k in n {
        assert Parent(k).value in n && ReAdded(l, n, s) && Live(n, k);
        assert Erases(s, k) && k != s;
      }
    }
    assert LeftBehind(l, n) == {};
  }

  /** The names that are sent are new in the shared state and among the block devices `o`. */
  ghost predicate NewNames(l: State, n: State, o: set<string>) {
    && (forall k, x | k in n && SentIn(l, n, k) && x in n :: !Clashes(k, n[k], x, n[x]))
    && (forall k | k in n && k.Namespace? && SentIn(l, n, k) && n[k].NsVal? :: n[k].uuid !in o)
  }

  /** Without collisions an update converges exactly when no kept object lies below a re-added one, QoS limits go
      with their namespaces, the handlers let everything through, names are new, and the changes in place do what
      they should. */
  lemma CleanWithoutCollision(l: State, n: State, o: set<string>)
    requires WfState(l) && WfState(n) && NoCollision(l, n)
    ensures Clean(l, n, o) <==>
            NothingKeptBelow(l, n) && LimitsGoAlong(l, n) && Admitted(l, n) && NewNames(l, n, o) && Settled(l, n)
  {
    if Clean(l, n, o) {
      CompleteKeepsNothingBelow(l, n);
      CompleteTakesLimitsAlong(l, n);
    } else if NothingKeptBelow(l, n) && LimitsGoAlong(l, n) && Admitted(l, n) {
      SimpleIsComplete(l, n);
    }
    if NothingKeptBelow(l, n) { NothingLeftBehind(l, n, o); }
  }

  /** A shared state that the handlers of a new gateway let in as it is. */
  ghost predicate FitsTogether(n: State) {
    && (forall k | k in n && k.Host? :: n[k].HostVal? && KeyFits(KeyOf(n, k.nqn), k.host, n[k].dhchap))
    && (forall k | Live(n, k) && k.Listener? && IsSecure(n[k]) :: Host(k.nqn, ANY_HOST) !in n)
    && (forall k | Live(n, k) && k.NsHost? :: HostAllowed(n, k.nqn, k.host, n[k]))
    && (forall k, x | k in n && Persisted(k) && x in n :: !Clashes(k, n[k], x, n[x]))
  }

  /** A new gateway gets the shared state exactly if that fits together, whatever its history. */
  lemma NewGatewayConverges(n: State)
    requires WfState(n)
    ensures Replayed(map[], {}, map[], n) == Installed(n) <==> FitsTogether(n)
  {
    var l: State := map[];
    assert Installed(l) == l;
    ReplayConverges(l, n, {});
    NewIsComplete(n);
    NewIsAdmitted(n);
    NewIsNamed(n);
  }

  lemma AllNew(n: State, k: Key)
    ensures SentIn(map[], n, k) <==> k in n && Persisted(k)
    ensures !Stands(map[], n, k) && !InPlace(map[], n, k)
  {
  }

  lemma NewIsComplete(n: State)
    ensures Complete(map[], n) && Settled(map[], n)
  {
    forall k ensures Live(n, k) ==> SentIn(map[], n, k) { AllNew(n, k); }
  }

  lemma NewIsAdmitted(n: State)
    requires WfState(n)
    ensures Admitted(map[], n) <==>
            && (forall k | k in n && k.Host? :: n[k].HostVal? && KeyFits(KeyOf(n, k.nqn), k.host, n[k].dhchap))
            && (forall k | Live(n, k) && k.Listener? && IsSecure(n[k]) :: Host(k.nqn, ANY_HOST) !in n)
            && (forall k | Live(n, k) && k.NsHost? :: HostAllowed(n, k.nqn, k.host, n[k]))
  {
    var l: State := map[];
    forall k | k in n && Persisted(k) ensures SentIn(l, n, k) { AllNew(n, k); }
  }

  lemma NewIsNamed(n: State)
    ensures Named(map[], n, {}) <==> forall k, x | k in n && Persisted(k) && x in n :: !Clashes(k, n[k], x, n[x])
  {
    forall k ensures SentIn(map[], n, k) <==> k in n && Persisted(k) { AllNew(n, k); }
    assert LeftBehind(map[], n) == {};
  }

  /** On a clean pair every add request of a live key is accepted when its family's turn comes. */
  lemma AcceptedAtOwnTurn(l: State, n: State, o: set<string>, k: Key)
    requires WfState(l) && WfState(n) && Clean(l, n, o) && Live(n, k) && SentIn(l, n, k)
    ensures Accepts(OwnTurn(Cleared(l, n), Unowned(l, n, o), l, n, k), Unowned(l, n, o), k, n[k])
  {
    var t := Cleared(l, n);
    LiveTaken(l, n, o, k);
    OnlyOwnTurn(t, Unowned(l, n, o), l, n, k);
    TakenAtOwnTurn(t, Unowned(l, n, o), l, n, k, n[k]);
    ClearedAt(l, n, k);
    if !k.Qos? { SentNotStanding(l, n, k); }
  }

  /** And without collisions every removal request erases nothing that has no removal request of its own, but for
      hosts of a namespace that becomes visible to all. */
  lemma RemovalsEraseTheirOwn(l: State, n: State, p: Key, k: Key)
    requires WfState(l) && WfState(n) && NoCollision(l, n) && NothingKeptBelow(l, n)
    requires SentOut(l, n, p) && k in Installed(l) && Erases(p, k)
    ensures SentOut(l, n, k) || (k in n && Moot(n, k))
  {
    assert Live(l, k);
    if k in n { ParentsStay(l, n, k); }
  }

  // ----- plain keys -----

  function Stored(s: State): State {
    map k | k in s && Persisted(k) :: s[k]
  }

  /** Plain erasing of the requests of the families `fs`, last family first. */
  function FlatWithoutAll(t: State, l: State, n: State, fs: seq<Family>): State {
    if fs == [] then t
    else FlatWithoutAll(t - OutGroup(l, n, fs[|fs| - 1]).Keys, l, n, fs[..|fs| - 1])
  }

  /** Plain writing of the requests of the families `fs`. */
  function FlatWithAll(t: State, l: State, n: State, fs: seq<Family>): State {
    if fs == [] then t
    else FlatWithAll(t, l, n, fs[..|fs| - 1]) + InGroup(l, n, fs[|fs| - 1])
  }

  /** Plain writing of the changed fields. */
  function FlatChangeAll(t: State, l: State, n: State, fs: seq<Family>): State {
    if fs == [] then t
    else
      var rest := FlatChangeAll(t, l, n, fs[..|fs| - 1]);
      map k | k in rest :: MinorValue(l, n, fs[|fs| - 1], k, rest[k])
  }

  /** An update on plain keys: a removal erases one key, an addition writes one key, a change writes one field,
      and nothing is refused. */
  function FlatReplayed(l: State, n: State): State {
    FlatChangeAll(FlatWithAll(FlatWithoutAll(Stored(l), l, n, PREFIXES), l, n, PREFIXES), l, n, MINOR_PREFIXES)
  }

  predicate InFamilies(fs: seq<Family>, k: Key) {
    FamilyOf(k).Some? && FamilyOf(k).value in fs
  }

  lemma {:induction false} FlatWithoutAt(t: State, l: State, n: State, fs: seq<Family>, k: Key)
    ensures var t' := FlatWithoutAll(t, l, n, fs);
            && (k in t' <==> k in t && !(InFamilies(fs, k) && SentOut(l, n, k))) && (k in t' ==> t'[k] == t[k])
  {
    if fs != [] {
      var f, rest := fs[|fs| - 1], fs[..|fs| - 1];
      assert fs == rest + [f];
      FlatWithoutAt(t - OutGroup(l, n, f).Keys, l, n, rest, k);
    }
  }

  lemma {:induction false} FlatWithAt(t: State, l: State, n: State, fs: seq<Family>, k: Key)
    requires forall f | f in fs :: !InPlaceFamily(f)
    ensures var t' := FlatWithAll(t, l, n, fs);
            && (k in t' <==> k in t || (InFamilies(fs, k) && SentIn(l, n, k)))
            && (k in t' ==> t'[k] == if InFamilies(fs, k) && SentIn(l, n, k) then n[k] else t[k])
  {
    if fs != [] {
      var f, rest := fs[|fs| - 1], fs[..|fs| - 1];
      assert fs == rest + [f];
      FlatWithAt(t, l, n, rest, k);
    }
  }

  lemma {:induction false} FlatChangeAt(t: State, l: State, n: State, fs: seq<Family>, k: Key)
    ensures var t' := FlatChangeAll(t, l, n, fs);
            (k in t' <==> k in t) && (k in t' ==> t'[k] == MinorsValue(l, n, fs, k, t[k]))
  {
    if fs != [] { FlatChangeAt(t, l, n, fs[..|fs| - 1], k); }
  }

  lemma EveryFamily(k: Key)
    requires Persisted(k)
    ensures InFamilies(PREFIXES, k) && forall f | f in PREFIXES :: !InPlaceFamily(f)
  {
    RankIsPlace(k);
    assert FamilyOf(k).value == PREFIXES[Rank(k)];
  }

  /** All fields that change in place, on the stored values. */
  lemma AllFieldsChange(l: State, n: State, k: Key)
    requires WfState(l) && WfState(n) && InPlace(l, n, k)
    ensures MinorsValue(l, n, MINOR_PREFIXES, k, l[k]) == (if k.Host? && k.host == ANY_HOST then l[k] else n[k])
  {
    assert Fits(k, l[k]) && Fits(k, n[k]);
    MinorsStep(l, n, FIRST_MINORS, HostSecretF, k, l[k]);
    match k {
      case Namespace(_, _) => NamespaceFieldsChange(l, n, k);
      case Host(_, _) => HostInPlace(l, n, k, "");
      case Subsystem(_) => SubsystemInPlace(l, n, k);
      case _ =>
    }
  }

  lemma NamespaceFieldsChange(l: State, n: State, k: Key)
    requires InPlace(l, n, k) && k.Namespace? && l[k].NsVal? && n[k].NsVal?
    ensures MinorsValue(l, n, FIRST_MINORS, k, l[k]) == n[k]
  {
    MinorsUnfold(l, n, k, l[k]);
    var v2 := MinorValue(l, n, LbGroupF, k, l[k]);
    assert v2 == l[k].(grp := n[k].grp);
    var v3 := MinorValue(l, n, VisibilityF, k, v2);
    assert v3 == v2.(hidden := n[k].hidden);
  }

  lemma FlatAt(l: State, n: State, k: Key)
    requires WfState(l) && WfState(n) && Persisted(k)
    ensures var r := FlatReplayed(l, n);
            && (k in r <==> SentIn(l, n, k) || (k in l && !SentOut(l, n, k)))
            && (k in r ==>
                  r[k] == if SentIn(l, n, k) || (InPlace(l, n, k) && !(k.Host? && k.host == ANY_HOST))
                          then n[k] else l[k])
  {
    var t1 := FlatWithoutAll(Stored(l), l, n, PREFIXES);
    var t2 := FlatWithAll(t1, l, n, PREFIXES);
    EveryFamily(k);
    FlatWithoutAt(Stored(l), l, n, PREFIXES, k);
    FlatWithAt(t1, l, n, PREFIXES, k);
    FlatChangeAt(t2, l, n, MINOR_PREFIXES, k);
    if InPlace(l, n, k) {
      AllFieldsChange(l, n, k);
    } else if k in t2 {
      NothingMinor(l, n, MINOR_PREFIXES, k, t2[k]);
    }
  }

  lemma FlatIsStored(l: State, n: State, k: Key)
    requires k in FlatReplayed(l, n)
    ensures Persisted(k)
  {
    var t1 := FlatWithoutAll(Stored(l), l, n, PREFIXES);
    var t2 := FlatWithAll(t1, l, n, PREFIXES);
    FlatChangeAt(t2, l, n, MINOR_PREFIXES, k);
    EveryFamily(Subsystem(""));
    FlatWithAt(t1, l, n, PREFIXES, k);
    FlatWithoutAt(Stored(l), l, n, PREFIXES, k);
  }

  ghost predicate NoAnyHostKey(l: State, n: State) {
    forall k | InPlace(l, n, k) :: !(k.Host? && k.host == ANY_HOST)
  }

  lemma FlatConverges(l: State, n: State)
    requires WfState(l) && WfState(n) && NoCollision(l, n) && NoAnyHostKey(l, n)
    ensures FlatReplayed(l, n) == Stored(n)
  {
    var r, g := FlatReplayed(l, n), Stored(n);
    forall k ensures (k in r <==> k in g) && (k in g ==> r[k] == g[k]) {
      if k in r { FlatIsStored(l, n, k); }
      if Persisted(k) { FlatConvergesAt(l, n, k); }
    }
  }

  lemma FlatConvergesAt(l: State, n: State, k: Key)
    requires WfState(l) && WfState(n) && NoCollision(l, n) && NoAnyHostKey(l, n) && Persisted(k)
    ensures (k in FlatReplayed(l, n) <==> k in n) && (k in n ==> FlatReplayed(l, n)[k] == n[k])
  {
    FlatAt(l, n, k);
  }

  /** On plain keys replay converges exactly when no family collides and no key of the entry for all hosts
      changes. */
  lemma FlatReplayConverges(l: State, n: State)
    requires WfState(l) && WfState(n)
    ensures FlatReplayed(l, n) == Stored(n) <==> NoCollision(l, n) && NoAnyHostKey(l, n)
  {
    if NoCollision(l, n) && NoAnyHostKey(l, n) { FlatConverges(l, n); }
    if FlatReplayed(l, n) == Stored(n) {
      forall k | k in l && Persisted(k) && Removed(l, n, k) ensures !Busy(l, n, FamilyOf(k)) {
        FlatAt(l, n, k);
        assert k !in Stored(n);
      }
      forall k | k in n && Persisted(k) && Added(l, n, k) ensures !Busy(l, n, FamilyOf(k)) {
        FlatAt(l, n, k);
        assert k in Stored(n);
      }
      forall k | InPlace(l, n, k) ensures !(k.Host? && k.host == ANY_HOST) {
        assert Fits(k, l[k]) && k in Stored(n);
        FlatAt(l, n, k);
      }
    }
  }

  // ----- what does not arrive -----

  /** A collision loses what it forgets: new keys of a busy family do not arrive, and its removed keys stay
      unless a parent goes. */
  lemma CollisionLoses(l: State, n: State, o: set<string>, k: Key)
    requires WfState(l) && WfState(n) && Persisted(k) && Busy(l, n, FamilyOf(k))
    ensures Added(l, n, k) ==> k !in Replayed(Installed(l), o, l, n)
    ensures Removed(l, n, k) && Live(l, k) && !k.NsHost? && !Erased(l, n, k) ==> k in Replayed(Installed(l), o, l, n)
  {
    MidwayAt(l, n, o, k);
    OutcomeAt(l, n, o, k);
  }

  /** A namespace that turns hidden in the same update that brings its hosts gets none of them: hosts are sent
      while it is still visible. */
  lemma HidingLosesHosts(l: State, n: State, o: set<string>, k: Key)
    requires WfState(l) && WfState(n) && k.NsHost? && Turned(l, n, k.nqn, k.nsid, false)
    ensures k !in Replayed(Installed(l), o, l, n)
  {
    StillVisible(l, n, o, k.nqn, k.nsid);
    MidwayAt(l, n, o, k);
    OutcomeAt(l, n, o, k);
    assert !Stands(l, n, k);
  }

  lemma StillVisible(l: State, n: State, o: set<string>, q: string, i: nat)
    requires WfState(l) && WfState(n) && Turned(l, n, q, i, false)
    ensures !IsHidden(Midway(l, n, o), q, i)
  {
    var ns := Namespace(q, i);
    MidwayAt(l, n, o, ns);
    SentOrSame(l, n, ns);
  }

  /** A host that does not fit the key its subsystem has when hosts are sent does not arrive, even if the same
      update changes the subsystem's key to one that the host does fit. */
  lemma KeyChangeLosesHosts(l: State, n: State, o: set<string>, k: Key)
    requires WfState(l) && WfState(n) && k.Host? && SentIn(l, n, k) && n[k].HostVal?
    requires !KeyFits(MidKey(l, n, k.nqn), k.host, n[k].dhchap)
    ensures k !in Replayed(Installed(l), o, l, n)
  {
    var s := Subsystem(k.nqn);
    SentNotStanding(l, n, k);
    MidwayAt(l, n, o, k);
    OutcomeAt(l, n, o, k);
    MidwayAt(l, n, o, s);
    assert Parent(k).value in n;
    if s in Midway(l, n, o) { SubsystemMidway(l, n, o, k.nqn); }
  }

  /** A host of a namespace that may not access the subsystem, and is not forced, does not arrive. */
  lemma UnforcedHostIsLost(l: State, n: State, o: set<string>, k: Key)
    requires WfState(l) && WfState(n) && k.NsHost? && SentIn(l, n, k)
    requires !HostAllowed(l, k.nqn, k.host, n[k]) && !HostAllowed(n, k.nqn, k.host, n[k])
    ensures k !in Replayed(Installed(l), o, l, n)
  {
    SentNotStanding(l, n, k);
    if Host(k.nqn, k.host) in Midway(l, n, o) { HostFromEither(l, n, o, k.nqn, k.host); }
    if Host(k.nqn, ANY_HOST) in Midway(l, n, o) { HostFromEither(l, n, o, k.nqn, ANY_HOST); }
    MidwayAt(l, n, o, k);
    OutcomeAt(l, n, o, k);
  }

  lemma HostFromEither(l: State, n: State, o: set<string>, q: string, h: string)
    requires WfState(l) && WfState(n) && Host(q, h) in Midway(l, n, o)
    ensures Host(q, h) in l || Host(q, h) in n
  {
    MidwayAt(l, n, o, Host(q, h));
  }

  /** What an update makes of QoS limits that are sent on top of others. */
  lemma LimitsAfter(l: State, n: State, o: set<string>, k: Key)
    requires WfState(l) && WfState(n) && k.Qos? && Stands(l, n, k) && SentIn(l, n, k)
    ensures l[k].QosVal? && n[k].QosVal? && k in Replayed(Installed(l), o, l, n)
    ensures Namespace(k.nqn, k.nsid) in Replayed(Installed(l), o, l, n) ==>
              Replayed(Installed(l), o, l, n)[k] ==
              QosVal(OnTop(OnTop(NO_LIMITS, l[k].limits), n[k].limits), n[k].rest)
  {
    LimitsMidway(l, n, o, k);
    OutcomeAt(l, n, o, k);
    OutcomeAt(l, n, o, Namespace(k.nqn, k.nsid));
    NothingChanges(l, n, k, Midway(l, n, o)[k], KeyOf(BeforeHostKeys(l, n, o), k.nqn));
  }

  lemma LimitsMidway(l: State, n: State, o: set<string>, k: Key)
    requires WfState(l) && WfState(n) && k.Qos? && Stands(l, n, k) && SentIn(l, n, k)
    ensures l[k].QosVal? && n[k].QosVal? && k in Midway(l, n, o) && !InPlace(l, n, k)
    ensures Namespace(k.nqn, k.nsid) in Midway(l, n, o) ==>
              Midway(l, n, o)[k] == QosVal(OnTop(OnTop(NO_LIMITS, l[k].limits), n[k].limits), n[k].rest)
  {
    LimitsAgain(l, n, k);
    MidwayAt(l, n, o, k);
    SentOrSame(l, n, k);
  }

  /** QoS limits that are in force and not named by the new request stay in force, and nothing else keeps the limits
      from becoming those of the request. */
  lemma UnnamedLimitsStay(l: State, n: State, o: set<string>, k: Key)
    requires WfState(l) && WfState(n) && k.Qos? && Stands(l, n, k) && SentIn(l, n, k)
    requires Namespace(k.nqn, k.nsid) in Replayed(Installed(l), o, l, n)
    ensures l[k].QosVal? && n[k].QosVal? && k in Replayed(Installed(l), o, l, n)
    ensures Replayed(Installed(l), o, l, n)[k] == Install(n[k]) <==> KeepsNone(l[k].limits, n[k].limits)
  {
    LimitsAfter(l, n, o, k);
    LimitsOnTop(l[k].limits, n[k].limits);
  }

  /** A namespace does not arrive if a block device without a namespace has the name of its own. */
  lemma TakenNameIsLost(l: State, n: State, o: set<string>, k: Key)
    requires WfState(l) && WfState(n) && k.Namespace? && SentIn(l, n, k) && n[k].NsVal? && n[k].uuid in Unowned(l, n, o)
    ensures k !in Replayed(Installed(l), o, l, n)
  {
    SentNotStanding(l, n, k);
    MidwayAt(l, n, o, k);
    OutcomeAt(l, n, o, k);
  }

  lemma BelowRanksHigher(p: Key, k: Key)
    requires Persisted(p) && Persisted(k) && Erases(p, k) && k != p
    ensures Rank(p) < Rank(k)
  {
  }

  lemma SentIsErased(l: State, n: State, k: Key)
    requires Persisted(k) && SentOut(l, n, k) && !k.Qos?
    ensures ErasedByFamily(l, n, PREFIXES[Rank(k)], k)
  {
    RankIsPlace(k);
  }

  lemma LaterPrefix(i: nat, j: nat)
    requires i < j < |PREFIXES|
    ensures PREFIXES[j] in PREFIXES[i + 1..]
  {
    assert PREFIXES[i + 1..][j - i - 1] == PREFIXES[j];
  }

  /** The removal order never makes a deletion take other objects with it: when everything below a deleted
      object is deleted too, nothing of it but QoS limits is left once its family's turn comes. */
  lemma NothingLeftBelow(l: State, n: State, p: Key, k: Key)
    requires WfState(l) && Persisted(p) && SentOut(l, n, p) && Persisted(k) && Erases(p, k) && k != p && !k.Qos?
    requires forall x | Live(l, x) && Erases(p, x) && !x.Qos? :: SentOut(l, n, x)
    ensures k !in WithoutAll(Installed(l), l, n, PREFIXES[Rank(p) + 1..])
  {
    WithoutFamilies(Installed(l), l, n, PREFIXES[Rank(p) + 1..], k);
    if Live(l, k) {
      BelowRanksHigher(p, k);
      SentIsErased(l, n, k);
      RankIsPlace(k);
      LaterPrefix(Rank(p), Rank(k));
    }
  }

  // ----- examples -----

  /** A subsystem whose size changes while another one is added: the new one never reaches the target. */
  lemma CollisionExample(o: set<string>)
    ensures var l := map[Subsystem("a") := SubsysVal("", "1", "small")];
            var n := map[Subsystem("a") := SubsysVal("", "1", "large"), Subsystem("b") := SubsysVal("", "2", "small")];
            && WfState(l) && WfState(n) && !NoCollision(l, n) && !Clean(l, n, o)
            && Replayed(Installed(l), o, l, n) != Installed(n)
  {
    var l := map[Subsystem("a") := SubsysVal("", "1", "small")];
    var n := map[Subsystem("a") := SubsysVal("", "1", "large"), Subsystem("b") := SubsysVal("", "2", "small")];
    CollisionStates(l, n);
    CollisionLoses(l, n, o, Subsystem("b"));
    ReplayConverges(l, n, o);
  }

  lemma CollisionStates(l: State, n: State)
    requires l == map[Subsystem("a") := SubsysVal("", "1", "small")]
    requires n == map[Subsystem("a") := SubsysVal("", "1", "large"), Subsystem("b") := SubsysVal("", "2", "small")]
    ensures WfState(l) && WfState(n) && Busy(l, n, Some(SubsystemF)) && !NoCollision(l, n)
    ensures Added(l, n, Subsystem("b")) && Subsystem("b") in Installed(n)
  {
    assert ReAdded(l, n, Subsystem("a"));
    assert Live(n, Subsystem("b"));
  }

  function SomeNs(uuid: string, image: string): Val {
    NsVal(1, false, false, false, uuid, image)
  }

  function BeforeReplacement(q: string): State {
    map[Subsystem(q) := SubsysVal("", "1", ""), Namespace(q, 1) := SomeNs(Decimal(1), ""),
        Namespace(q, 2) := SomeNs(Decimal(2), "old"), Namespace(q, 10) := SomeNs(Decimal(10), "")]
  }

  function AfterReplacement(q: string): State {
    map[Subsystem(q) := SubsysVal("", "1", ""), Namespace(q, 2) := SomeNs(Decimal(2), "new"),
        Namespace(q, 10) := SomeNs(Decimal(10), ""), Qos(q, 10) := QosVal(NO_LIMITS.(rwIos := Some(1000)), "")]
  }

  lemma ReplacementStates(q: string)
    requires Free(q) && q != ""
    ensures WfState(BeforeReplacement(q)) && WfState(AfterReplacement(q))
  {
    ReplacementBefore(q);
  }

  lemma ReplacementBefore(q: string)
    requires Free(q) && q != ""
    ensures WfState(BeforeReplacement(q))
  {
  }

  /** Namespace 1 is deleted and namespace 2 gets another image: namespace 1 stays on the target. */
  lemma StaleNamespaceStays(q: string, o: set<string>)
    requires Free(q) && q != ""
    ensures var l, n := BeforeReplacement(q), AfterReplacement(q);
            Namespace(q, 1) !in n && Namespace(q, 1) in Replayed(Installed(l), o, l, n)
  {
    ReplacementStates(q);
    ReplacementChanges(q);
    CollisionLoses(BeforeReplacement(q), AfterReplacement(q), o, Namespace(q, 1));
  }

  lemma ReplacementChanges(q: string)
    ensures var l, n := BeforeReplacement(q), AfterReplacement(q);
            && Removed(l, n, Namespace(q, 1)) && Live(l, Namespace(q, 1))
            && Busy(l, n, Some(NamespaceF)) && !Erased(l, n, Namespace(q, 1))
  {
    var l, n := BeforeReplacement(q), AfterReplacement(q);
    assert Namespace(q, 2) in n && ReAdded(l, n, Namespace(q, 2)) && FamilyOf(Namespace(q, 2)) == Some(NamespaceF);
    assert !SentOut(l, n, Subsystem(q));
  }

  function WithKey(q: string): State {
    map[Subsystem(q) := SubsysVal("key", "1", "")]
  }

  function WithoutKey(q: string, h: string): State {
    map[Subsystem(q) := SubsysVal("", "1", ""), Host(q, h) := HostVal("", "")]
  }

  lemma KeyStates(q: string, h: string)
    requires Free(q) && q != "" && Free(h) && h != ""
    ensures WfState(WithKey(q)) && WfState(WithoutKey(q, h)) && NoCollision(WithKey(q), WithoutKey(q, h))
  {
  }

  /** A subsystem loses its key and gets a host without one in the same update: the host never arrives. */
  lemma KeyChangeExample(q: string, h: string, o: set<string>)
    requires Free(q) && q != "" && Free(h) && h != ""
    ensures var l, n := WithKey(q), WithoutKey(q, h);
            && Complete(l, n) && Host(q, h) in Installed(n) && Host(q, h) !in Replayed(Installed(l), o, l, n)
            && !Clean(l, n, o)
  {
    var l, n := WithKey(q), WithoutKey(q, h);
    KeyStates(q, h);
    KeyChanges(q, h);
    KeyChangeLosesHosts(l, n, o, Host(q, h));
    ReplayConverges(l, n, o);
  }

  lemma KeyChanges(q: string, h: string)
    ensures var l, n := WithKey(q), WithoutKey(q, h);
            && Complete(l, n) && Host(q, h) in Installed(n) && SentIn(l, n, Host(q, h))
            && MidKey(l, n, q) == "key"
  {
    var l, n := WithKey(q), WithoutKey(q, h);
    assert InPlace(l, n, Subsystem(q)) && SentIn(l, n, Host(q, h));
    assert Live(n, Host(q, h));
  }

  function WithLostAccess(q: string, h: string): State {
    map[Subsystem(q) := SubsysVal("", "1", ""), Namespace(q, 1) := NsVal(1, true, false, false, "1", ""),
        NsHost(q, 1, h) := NsHostVal(false, "")]
  }

  lemma LostAccessStates(q: string, h: string)
    requires Free(q) && q != "" && Free(h) && h != ANY_HOST
    ensures WfState(map[]) && WfState(WithLostAccess(q, h)) && NoCollision(map[], WithLostAccess(q, h))
    ensures Complete(map[], WithLostAccess(q, h)) && NsHost(q, 1, h) in Installed(WithLostAccess(q, h))
  {
    assert Live(WithLostAccess(q, h), NsHost(q, 1, h));
  }

  /** A host was added to a namespace and then lost its access to the subsystem: a new gateway never has it. */
  lemma LostAccessExample(q: string, h: string, o: set<string>)
    requires Free(q) && q != "" && Free(h) && h != ANY_HOST
    ensures var n := WithLostAccess(q, h);
            && Complete(map[], n) && NsHost(q, 1, h) in Installed(n)
            && NsHost(q, 1, h) !in Replayed(Installed(map[]), o, map[], n) && !Clean(map[], n, o)
  {
    LostAccessStates(q, h);
    UnforcedHostIsLost(map[], WithLostAccess(q, h), o, NsHost(q, 1, h));
    ReplayConverges(map[], WithLostAccess(q, h), o);
  }

  function FirstLimits(q: string): State {
    map[Subsystem(q) := SubsysVal("", "1", ""), Namespace(q, 1) := SomeNs("1", ""),
        Namespace(q, 10) := SomeNs("10", ""), Qos(q, 10) := QosVal(NO_LIMITS.(rwIos := Some(1000)), "")]
  }

  function OtherLimits(q: string): State {
    map[Subsystem(q) := SubsysVal("", "1", ""), Namespace(q, 10) := SomeNs("10", ""),
        Qos(q, 10) := QosVal(NO_LIMITS.(rMbytes := Some(5)), "")]
  }

  lemma LimitStates(q: string)
    requires Free(q) && q != ""
    ensures WfState(FirstLimits(q)) && WfState(OtherLimits(q)) && NoCollision(FirstLimits(q), OtherLimits(q))
    ensures var l, n := FirstLimits(q), OtherLimits(q); Stands(l, n, Qos(q, 10)) && SentIn(l, n, Qos(q, 10))
  {
    var l, n := FirstLimits(q), OtherLimits(q);
    assert Live(l, Qos(q, 10)) && ReAdded(l, n, Qos(q, 10));
    assert !SentOut(l, n, Subsystem(q)) && !SentOut(l, n, Namespace(q, 10));
  }

  /** Deleting namespace 1 erases the QoS key of namespace 10, and new limits are set: the old ones stay. */
  lemma LimitsExample(q: string, o: set<string>)
    requires Free(q) && q != ""
    ensures var l, n := FirstLimits(q), OtherLimits(q);
            && !Clean(l, n, o) && Qos(q, 10) in Replayed(Installed(l), o, l, n)
            && Replayed(Installed(l), o, l, n)[Qos(q, 10)] == QosVal(Limits(Some(1000), None, Some(5), None), "")
  {
    var l, n, k := FirstLimits(q), OtherLimits(q), Qos(q, 10);
    LimitStates(q);
    NamespaceStays(q, o);
    LimitsAfter(l, n, o, k);
    assert !KeepsNone(l[k].limits, n[k].limits);
  }

  lemma NamespaceStays(q: string, o: set<string>)
    requires Free(q) && q != ""
    ensures var l, n := FirstLimits(q), OtherLimits(q); Namespace(q, 10) in Replayed(Installed(l), o, l, n)
  {
    var l, n, ns := FirstLimits(q), OtherLimits(q), Namespace(q, 10);
    LimitStates(q);
    MidwayAt(l, n, o, ns);
    OutcomeAt(l, n, o, ns);
    assert Live(l, ns) && !Erased(l, n, ns);
  }

  function TwoSubsystems(q: string, r: string): State {
    map[Subsystem(q) := SubsysVal("", "1", ""), Namespace(q, 1) := SomeNs("X", ""),
        Subsystem(r) := SubsysVal("", "2", ""), Namespace(r, 1) := SomeNs("Y", "")]
  }

  function TakenOver(r: string): State {
    map[Subsystem(r) := SubsysVal("", "2", ""), Namespace(r, 1) := SomeNs("X", "")]
  }

  lemma TakenOverStates(q: string, r: string)
    requires Free(q) && q != "" && Free(r) && r != "" && q != r
    ensures WfState(TwoSubsystems(q, r)) && WfState(TakenOver(r))
  {
  }

  lemma TakenOverSends(q: string, r: string)
    requires q != r
    ensures var l, n := TwoSubsystems(q, r), TakenOver(r);
            SentIn(l, n, Namespace(r, 1)) && n[Namespace(r, 1)].uuid in LeftBehind(l, n)
  {
    var l, n := TwoSubsystems(q, r), TakenOver(r);
    assert ReAdded(l, n, Namespace(r, 1)) && FamilyOf(Namespace(r, 1)) == Some(NamespaceF);
    assert Busy(l, n, Some(NamespaceF)) && !SentOut(l, n, Namespace(q, 1));
    assert FamilyOf(Subsystem(q)) == Some(SubsystemF) && !Busy(l, n, Some(SubsystemF));
    assert SentOut(l, n, Subsystem(q)) && Namespace(q, 1) in l;
  }

  /** A subsystem is deleted with its namespace, whose UUID goes to a namespace of another one: the update deletes
      only the subsystem, the block device stays, and the namespace that needs its name never arrives. */
  lemma TakenOverExample(q: string, r: string, o: set<string>)
    requires Free(q) && q != "" && Free(r) && r != "" && q != r
    ensures var l, n := TwoSubsystems(q, r), TakenOver(r);
            && Complete(l, n) && Namespace(r, 1) in Installed(n)
            && Namespace(r, 1) !in Replayed(Installed(l), o, l, n) && !Clean(l, n, o)
  {
    var l, n := TwoSubsystems(q, r), TakenOver(r);
    TakenOverStates(q, r);
    TakenOverSends(q, r);
    TakenNameIsLost(l, n, o, Namespace(r, 1));
    TakenOverIsComplete(q, r);
    assert Live(n, Namespace(r, 1));
    ReplayConverges(l, n, o);
  }

  lemma TakenOverIsComplete(q: string, r: string)
    requires q != r
    ensures Complete(TwoSubsystems(q, r), TakenOver(r))
  {
    TakenOverSends(q, r);
    var l, n := TwoSubsystems(q, r), TakenOver(r);
    assert !Busy(l, n, Some(SubsystemF)) && SentOut(l, n, Subsystem(q));
    assert Live(l, Subsystem(r)) && !Erased(l, n, Subsystem(r));
  }
}
