/** The update as the gateway runs it: dictionaries that are sorted out key by key, and requests to the target
    in the order of the prefixes. */
module ReplayUpdate {
  import opened Text
  import opened StateKeys
  import opened StateOps
  import opened Replay

  // ----- one more request -----

  ghost predicate OfFamily(g: State, f: Family) {
    forall k | k in g :: FamilyOf(k) == Some(f) && Fits(k, g[k])
  }

  lemma ModifiedByOneMore(t: State, t': State, g: State, k: Key, w: Val, x: Key, v: Val, f: Family)
    requires OfFamily(g, f) && FamilyOf(k) == Some(f) && Fits(k, w) && k !in g
    requires f.HostSecretF? && x.Host? ==> KeyOf(t', x.nqn) == KeyOf(t, x.nqn)
    ensures Modified(t', map[k := w], x, Modified(t, g, x, v)) == Modified(t, g[k := w], x, v)
  {
  }

  /** Changes of host keys leave the subsystems' keys alone. */
  lemma SubsystemKeyKept(t: State, b: set<string>, g: State, q: string)
    requires OfFamily(g, HostSecretF)
    ensures KeyOf(With(t, b, HostSecretF, g), q) == KeyOf(t, q)
  {
  }

  /** No two objects, or requests, have the same serial number or UUID. */
  ghost predicate Distinct(g: State) {
    forall k, x | k in g && x in g :: !Clashes(k, g[k], x, g[x])
  }

  lemma DistinctIsAlone(g: State, k: Key)
    requires Distinct(g) && k in g
    ensures Alone(g, k)
  {
  }

  lemma WithOneMore(t: State, b: set<string>, f: Family, g: State, k: Key, w: Val)
    requires OfFamily(g, f) && FamilyOf(k) == Some(f) && Fits(k, w) && k !in g
    requires Distinct(g[k := w])
    ensures With(With(t, b, f, g), b, f, map[k := w]) == With(t, b, f, g[k := w])
  {
    if InPlaceFamily(f) {
      ChangeOneMore(t, b, f, g, k, w);
    } else {
      AddOneMore(t, b, f, g, k, w);
    }
  }

  lemma ChangeOneMore(t: State, b: set<string>, f: Family, g: State, k: Key, w: Val)
    requires InPlaceFamily(f) && OfFamily(g, f) && FamilyOf(k) == Some(f) && Fits(k, w) && k !in g
    ensures With(With(t, b, f, g), b, f, map[k := w]) == With(t, b, f, g[k := w])
  {
    var t' := With(t, b, f, g);
    var r, r' := With(t', b, f, map[k := w]), With(t, b, f, g[k := w]);
    forall x ensures x in r <==> x in r' {
      assert DropsHost(g[k := w], x) <==> DropsHost(g, x) || DropsHost(map[k := w], x);
    }
    forall x | x in r && x in r' ensures r[x] == r'[x] {
      if f.HostSecretF? && x.Host? { SubsystemKeyKept(t, b, g, x.nqn); }
      ModifiedByOneMore(t, t', g, k, w, x, t[x], f);
    }
  }

  lemma AddAt(t: State, b: set<string>, f: Family, g: State, x: Key)
    requires !InPlaceFamily(f) && Distinct(g)
    ensures x in With(t, b, f, g) <==> x in t || (x in g && Accepts(t, b, x, g[x]))
    ensures x in With(t, b, f, g) ==>
              With(t, b, f, g)[x] == if x in g && Accepts(t, b, x, g[x]) then Placed(t, x, g[x]) else t[x]
  {
    if x in g { DistinctIsAlone(g, x); }
  }

  lemma DistinctParts(g: State, k: Key, w: Val)
    requires Distinct(g[k := w]) && k !in g
    ensures Distinct(g) && Distinct(map[k := w]) && forall x | x in g :: !Clashes(k, w, x, g[x])
  {
    var h := g[k := w];
    forall x, y | x in g && y in g ensures !Clashes(x, g[x], y, g[y]) { assert x in h && y in h; }
    forall x | x in g ensures !Clashes(k, w, x, g[x]) { assert k in h && x in h; }
  }

  lemma AddOneMore(t: State, b: set<string>, f: Family, g: State, k: Key, w: Val)
    requires !InPlaceFamily(f) && OfFamily(g, f) && FamilyOf(k) == Some(f) && k !in g && Distinct(g[k := w])
    ensures With(With(t, b, f, g), b, f, map[k := w]) == With(t, b, f, g[k := w])
  {
    var t' := With(t, b, f, g);
    var r, r' := With(t', b, f, map[k := w]), With(t, b, f, g[k := w]);
    DistinctParts(g, k, w);
    AcceptsAfter(t, b, f, g, k, w);
    forall x ensures (x in r <==> x in r') && (x in r ==> r[x] == r'[x]) { AddOneMoreAt(t, b, f, g, k, w, x); }
  }

  lemma AddOneMoreAt(t: State, b: set<string>, f: Family, g: State, k: Key, w: Val, x: Key)
    requires !InPlaceFamily(f) && k !in g && Distinct(g) && Distinct(map[k := w]) && Distinct(g[k := w])
    requires Accepts(With(t, b, f, g), b, k, w) <==> Accepts(t, b, k, w)
    ensures var r, r' := With(With(t, b, f, g), b, f, map[k := w]), With(t, b, f, g[k := w]);
            (x in r <==> x in r') && (x in r ==> r[x] == r'[x])
  {
    AddAt(t, b, f, g, x);
    AddAt(With(t, b, f, g), b, f, map[k := w], x);
    AddAt(t, b, f, g[k := w], x);
  }

  /** Whether a request is accepted does not depend on the other requests of its family, unless one has its name. */
  lemma AcceptsAfter(t: State, b: set<string>, f: Family, g: State, k: Key, v: Val)
    requires OfFamily(g, f) && FamilyOf(k) == Some(f) && k !in g && !InPlaceFamily(f)
    requires Distinct(g) && forall x | x in g :: !Clashes(k, v, x, g[x])
    ensures Accepts(With(t, b, f, g), b, k, v) <==> Accepts(t, b, k, v)
  {
    forall x | FamilyOf(x) != Some(f) ensures x !in g {}
    if k.Host? { ListenersKept(t, b, g, k.nqn); }
    if k.Subsystem? || k.Namespace? { NamesKept(t, b, f, g, k, v); }
  }

  lemma NamesKept(t: State, b: set<string>, f: Family, g: State, k: Key, v: Val)
    requires OfFamily(g, f) && !InPlaceFamily(f) && Distinct(g) && forall x | x in g :: !Clashes(k, v, x, g[x])
    ensures NameFree(With(t, b, f, g), b, k, v) <==> NameFree(t, b, k, v)
  {
    var t' := With(t, b, f, g);
    forall x ensures ClashesAt(t', k, v, x) <==> ClashesAt(t, k, v, x) {
      if x.Subsystem? || x.Namespace? {
        NameKept(t, b, f, g, k, v, x);
      } else {
        assert forall w :: !Clashes(k, v, x, w);
      }
    }
    SameNames(t, t', b, k, v);
  }

  lemma PlacedName(t: State, k: Key, v: Val, x: Key, w: Val)
    ensures Clashes(k, v, x, Placed(t, x, w)) <==> Clashes(k, v, x, w)
  {
  }

  lemma NameKept(t: State, b: set<string>, f: Family, g: State, k: Key, v: Val, x: Key)
    requires !InPlaceFamily(f) && Distinct(g) && (x.Subsystem? || x.Namespace?)
    requires x in g ==> !Clashes(k, v, x, g[x])
    ensures ClashesAt(With(t, b, f, g), k, v, x) <==> ClashesAt(t, k, v, x)
  {
    AddAt(t, b, f, g, x);
    if x in g {
      PlacedName(t, k, v, x, g[x]);
      if Accepts(t, b, x, g[x]) { AcceptedIsNew(t, b, x, g[x]); }
    }
  }

  lemma ListenersKept(t: State, b: set<string>, g: State, q: string)
    requires OfFamily(g, HostF)
    ensures HasSecureListener(With(t, b, HostF, g), q) <==> HasSecureListener(t, q)
  {
    var t' := With(t, b, HostF, g);
    forall x: Key | x.Listener? ensures (x in t' <==> x in t) && (x in t ==> t'[x] == t[x]) {
      assert FamilyOf(x) != Some(HostF);
    }
    if HasSecureListener(t, q) {
      var x :| x in t && x.Listener? && x.nqn == q && IsSecure(t[x]);
      assert x in t' && IsSecure(t'[x]);
    }
  }

  /** On a clean pair every add request of a live key is accepted, whichever requests of its family come before. */
  lemma AcceptedInAnyOrder(l: State, n: State, o: set<string>, k: Key, f: Family, before: State)
    requires WfState(l) && WfState(n) && Clean(l, n, o) && Live(n, k) && SentIn(l, n, k)
    requires FamilyOf(k) == Some(f) && !InPlaceFamily(f) && k !in before && OfFamily(before, f)
    requires forall x | x in before :: x in n && SentIn(l, n, x) && before[x] == n[x]
    ensures var b := Unowned(l, n, o);
            Accepts(With(OwnTurn(Cleared(l, n), b, l, n, k), b, f, before), b, k, n[k])
  {
    var b := Unowned(l, n, o);
    var t := OwnTurn(Cleared(l, n), b, l, n, k);
    AcceptedAtOwnTurn(l, n, o, k);
    AcceptsAfter(t, b, f, before, k, n[k]);
  }

  lemma WithoutOneMore(t: State, g: State, k: Key, w: Val)
    ensures Without(Without(t, g), map[k := w]) == Without(t, g[k := w])
  {
    var r, r' := Without(Without(t, g), map[k := w]), Without(t, g[k := w]);
    forall x ensures x in r <==> x in r' {}
    forall x | x in r ensures r[x] == r'[x] {}
  }

  lemma UnusedOneMore(t: State, g: State, k: Key, w: Val, f: Family)
    requires OfFamily(g, f) && FamilyOf(k) == Some(f) && k !in g
    ensures Unused(t, g[k := w]) == Unused(t, g) + Unused(Without(t, g), map[k := w])
  {
    forall x: Key | x.Namespace? && x in t && Subsystem(x.nqn) == k ensures x in Without(t, g) {}
  }

  lemma WithNone(t: State, b: set<string>, f: Family)
    ensures With(t, b, f, map[]) == t && Without(t, map[]) == t && Unused(t, map[]) == {}
  {
  }
  // ----- the target -----

  lemma AddKeepsTarget(t: State, b: set<string>, k: Key, v: Val)
    requires TargetOk(t) && Persisted(k) && Fits(k, v) && Accepts(t, b, k, v)
    ensures TargetOk(t[k := Placed(t, k, v)])
  {
    var t' := t[k := Placed(t, k, v)];
    forall x | x in t'
      ensures Persisted(x) && Fits(x, t'[x]) && !Moot(t', x) && (Parent(x).Some? ==> Parent(x).value in t')
    {
      assert x != k ==> Parent(x).Some? ==> Parent(x).value in t;
    }
  }

  lemma RemoveKeepsTarget(t: State, g: State)
    requires TargetOk(t)
    ensures TargetOk(Without(t, g))
  {
    var t' := Without(t, g);
    forall x | x in t' && Parent(x).Some? ensures Parent(x).value in t' {
      var p := Parent(x).value;
      assert p in t && (Parent(p).Some? ==> Parent(p).value == Subsystem(x.nqn));
    }
  }

  lemma ChangeKeepsTarget(t: State, b: set<string>, f: Family, k: Key, v: Val)
    requires TargetOk(t) && InPlaceFamily(f) && FamilyOf(k) == Some(f) && Fits(k, v)
    ensures TargetOk(With(t, b, f, map[k := v]))
  {
    var t' := With(t, b, f, map[k := v]);
    forall x | x in t' ensures Fits(x, t'[x]) && !Moot(t', x) && (Parent(x).Some? ==> Parent(x).value in t') {
      assert Fits(x, t[x]) && !Moot(t, x);
      if Parent(x).Some? {
        assert Parent(x).value in t && !Parent(x).value.NsHost?;
      }
    }
  }

  /** One removal request, spelt out. */
  lemma RemovedIs(t: State, k: Key, v: Val, t': State)
    requires TargetOk(t) && Persisted(k)
    requires forall x :: x in t' <==> x in t && !(k in t && Erases(k, x))
    requires forall x | x in t' :: t'[x] == t[x]
    ensures t' == Without(t, map[k := v])
  {
    var r := Without(t, map[k := v]);
    forall x ensures x in t' <==> x in r {
      if x in t && k !in t && Parent(x).Some? {
        var p := Parent(x).value;
        assert p in t && (Parent(p).Some? ==> Parent(p).value in t);
      }
    }
  }

  lemma ModifiedByOne(t: State, k: Key, v: Val, x: Key, o: Val)
    requires Fits(k, v) && !Persisted(k) && FamilyOf(k).Some? && Fits(x, o)
    ensures Modified(t, map[k := v], x, o) == if x == Subject(k) then Merged(t, k, o, v) else o
  {
    match k {
      case LbGroup(q, i) =>
      case Visibility(q, i) =>
      case TrashImage(q, i) =>
      case HostSecret(q, h) =>
      case SubsystemSecret(q) =>
      case _ =>
    }
  }

  /** One request for a change in place, spelt out. */
  lemma ChangedIs(t: State, b: set<string>, k: Key, v: Val, t': State)
    requires TargetOk(t) && FamilyOf(k).Some? && !Persisted(k) && Fits(k, v)
    requires forall x :: x in t' <==>
                         x in t && !(x.NsHost? && k == Visibility(x.nqn, x.nsid) && Subject(k) in t && v.visible)
    requires forall x | x in t' :: t'[x] == if x == Subject(k) then Merged(t, k, t[x], v) else t[x]
    ensures t' == With(t, b, FamilyOf(k).value, map[k := v])
  {
    var r := With(t, b, FamilyOf(k).value, map[k := v]);
    forall x ensures x in t' <==> x in r {
      if x in t && x.NsHost? { assert Parent(x).value in t; }
    }
    forall x | x in t' && x in r ensures t'[x] == r[x] { ModifiedByOne(t, k, v, x, t[x]); }
  }

  function Merged(t: State, k: Key, o: Val, v: Val): Val {
    if k.HostSecret? && v.SecretVal? && !TakesKey(KeyOf(t, k.nqn), k.host, v.dhchap) then o else Merge(o, v)
  }

  /** The block devices of the namespaces, by UUID. */
  ghost function Used(t: State): set<string> {
    set k | k in t && k.Namespace? && t[k].NsVal? :: t[k].uuid
  }

  /** A target on which names are unique. */
  ghost predicate Sound(t: State) {
    TargetOk(t) && Distinct(t)
  }

  /** To SPDK all block devices are the same, used or not. */
  lemma NameTaken(t: State, bdevs: set<string>, k: Key, v: Val)
    requires Sound(t) && Used(t) <= bdevs && k !in t
    ensures NameFree(t, bdevs, k, v) <==> NameFree(t, bdevs - Used(t), k, v)
  {
    if k.Namespace? && v.NsVal? && v.uuid in Used(t) {
      var x :| x in t && x.Namespace? && t[x].NsVal? && t[x].uuid == v.uuid;
      assert Clashes(k, v, x, t[x]);
    }
  }

  lemma AddKeepsNames(t: State, b: set<string>, k: Key, v: Val)
    requires Distinct(t) && Persisted(k) && Fits(k, v) && Accepts(t, b, k, v)
    ensures Distinct(t[k := Placed(t, k, v)])
  {
    var t' := t[k := Placed(t, k, v)];
    forall x, y | x in t' && y in t' ensures !Clashes(x, t'[x], y, t'[y]) {
      assert x in t && y in t ==> !Clashes(x, t[x], y, t[y]);
    }
  }

  lemma AddUses(t: State, k: Key, v: Val)
    requires Persisted(k) && Fits(k, v) && (k in t ==> k.Qos?)
    ensures Used(t[k := Placed(t, k, v)]) == Used(t) + if k.Namespace? then {v.uuid} else {}
  {
    var t' := t[k := Placed(t, k, v)];
    forall u | u in Used(t) ensures u in Used(t') {
      var x :| x in t && x.Namespace? && t[x].NsVal? && t[x].uuid == u;
      assert x in t' && t'[x] == t[x];
    }
    if k.Namespace? { assert k in t' && t'[k].uuid == v.uuid; }
  }

  lemma WithOne(t: State, b: set<string>, k: Key, v: Val)
    requires Persisted(k)
    ensures With(t, b, FamilyOf(k).value, map[k := v]) == if Accepts(t, b, k, v) then t[k := Placed(t, k, v)] else t
  {
    assert Alone(map[k := v], k);
  }

  lemma NotInUse(t: State, bdevs: set<string>, k: Key, v: Val)
    requires Accepts(t, bdevs, k, v) && Fits(k, v) && Used(t) <= bdevs && k.Namespace?
    ensures v.uuid !in bdevs && k !in t
  {
  }

  /** One add request on a sound target, whose block devices are `bdevs`. */
  lemma AddOne(t: State, bdevs: set<string>, k: Key, v: Val)
    requires Sound(t) && Used(t) <= bdevs && Persisted(k) && Fits(k, v)
    ensures var b := bdevs - Used(t); var t' := t[k := Placed(t, k, v)];
            var bdevs' := if k.Namespace? then bdevs + {v.uuid} else bdevs;
            && With(t, b, FamilyOf(k).value, map[k := v]) == (if Accepts(t, bdevs, k, v) then t' else t)
            && (Accepts(t, bdevs, k, v) ==> Sound(t') && Used(t') <= bdevs' && bdevs' - Used(t') == b)
  {
    var b := bdevs - Used(t);
    WithOne(t, b, k, v);
    if k !in t { NameTaken(t, bdevs, k, v); }
    if Accepts(t, bdevs, k, v) {
      AddKeepsTarget(t, bdevs, k, v);
      AddKeepsNames(t, bdevs, k, v);
      if !k.Qos? { AcceptedIsNew(t, bdevs, k, v); }
      AddUses(t, k, v);
      if k.Namespace? { NotInUse(t, bdevs, k, v); }
    }
  }

  lemma ModifiedKeepsNames(t: State, g: State, k: Key, v: Val, x: Key, w: Val)
    ensures Clashes(k, Modified(t, g, k, v), x, Modified(t, g, x, w)) <==> Clashes(k, v, x, w)
  {
  }

  lemma ChangeKeepsNames(t: State, b: set<string>, f: Family, g: State)
    requires InPlaceFamily(f)
    ensures Distinct(t) ==> Distinct(With(t, b, f, g))
    ensures Used(With(t, b, f, g)) == Used(t)
  {
    var t' := With(t, b, f, g);
    if Distinct(t) {
      forall x, y | x in t' && y in t' ensures !Clashes(x, t'[x], y, t'[y]) {
        ModifiedKeepsNames(t, g, x, t[x], y, t[y]);
      }
    }
    forall x: Key | x.Namespace? ensures (x in t' <==> x in t) && (x in t && t[x].NsVal? ==> t'[x].NsVal?) {}
    forall u | u in Used(t) ensures u in Used(t') {
      var x :| x in t && x.Namespace? && t[x].NsVal? && t[x].uuid == u;
      assert x in t' && t'[x].uuid == u;
    }
  }

  lemma RemoveKeepsNames(t: State, g: State)
    requires Distinct(t)
    ensures Distinct(Without(t, g)) && Used(Without(t, g)) <= Used(t)
  {
  }

  /** The removal of anything but a subsystem or a namespace leaves all block devices in use. */
  lemma RemoveUses(t: State, k: Key, v: Val)
    requires Sound(t) && Persisted(k)
    ensures k.Namespace? && k in t ==> Used(Without(t, map[k := v])) == Used(t) - {t[k].uuid}
    ensures k.Subsystem? ==> Used(t) == Used(Without(t, map[k := v])) + Unused(t, map[k := v])
    ensures k.Subsystem? ==> Used(Without(t, map[k := v])) !! Unused(t, map[k := v])
    ensures !k.Subsystem? ==> Unused(t, map[k := v]) == {}
    ensures !k.Subsystem? && !(k.Namespace? && k in t) ==> Used(Without(t, map[k := v])) == Used(t)
  {
    var t' := Without(t, map[k := v]);
    forall x: Key | x.Namespace? && x in t
      ensures t[x].NsVal? && (x in t' <==> x != k && Subsystem(x.nqn) != k) && (x in t' ==> t'[x] == t[x])
    { assert Fits(x, t[x]); }
    forall x: Key, y: Key | x in t && y in t && x.Namespace? && y.Namespace? && x != y ensures t[x].uuid != t[y].uuid {
      assert !Clashes(x, t[x], y, t[y]);
    }
    UsedSplits(t, t', k);
  }

  lemma UsedSplits(t: State, t': State, k: Key)
    requires forall x: Key | x.Namespace? && x in t ::
               t[x].NsVal? && (x in t' <==> x != k && Subsystem(x.nqn) != k) && (x in t' ==> t'[x] == t[x])
    requires forall x: Key | x in t' :: x in t
    ensures forall u :: u in Used(t') <==> exists x: Key :: x in t && x.Namespace? && t[x].uuid == u && x in t'
    ensures forall u :: u in Used(t) <==> exists x: Key :: x in t && x.Namespace? && t[x].uuid == u
  {
    forall u | u in Used(t') ensures exists x: Key :: x in t && x.Namespace? && t[x].uuid == u && x in t' {
      var x :| x in t' && x.Namespace? && t'[x].NsVal? && t'[x].uuid == u;
      assert x in t;
    }
    forall x: Key | x in t && x.Namespace? && x in t' ensures t[x].uuid in Used(t') { assert t'[x].NsVal?; }
    forall x: Key | x in t && x.Namespace? ensures t[x].uuid in Used(t) {}
  }

  class SpdkTarget {
    var objects: State
    /** The UUIDs of all block devices. */
    var bdevs: set<string>

    ghost predicate Valid()
      reads this
    {
      Sound(objects) && Used(objects) <= bdevs
    }

    /** The block devices that no namespace uses. */
    ghost function Spare(): set<string>
      reads this
    {
      bdevs - Used(objects)
    }

    /** The target after an update: it is the replayed one unless two keys that are sent have the same name. */
    twostate predicate Sent(l: State, n: State)
      reads this
    {
      && Spare() == UnusedAfter(old(objects), old(Spare()), l, n, PREFIXES)
      && (SentDistinct(l, n) ==> objects == Replayed(old(objects), old(Spare()), l, n))
    }

    /** A request to create or change the object of a key. A missing parent, an existing object or a name that is
        taken make the handler refuse it, and the update goes on. */
    method Add(k: Key, v: Val)
      requires Valid() && FamilyOf(k).Some? && Fits(k, v)
      modifies this
      ensures Valid() && Spare() == old(Spare())
      ensures objects == With(old(objects), old(Spare()), FamilyOf(k).value, map[k := v])
    {
      if Persisted(k) {
        AddOne(objects, bdevs, k, v);
        if Accepts(objects, bdevs, k, v) {
          if k.Namespace? { bdevs := bdevs + {v.uuid}; }
          objects := objects[k := Placed(objects, k, v)];
        }
      } else {
        ChangeKeepsTarget(objects, Spare(), FamilyOf(k).value, k, v);
        ChangeKeepsNames(objects, Spare(), FamilyOf(k).value, map[k := v]);
        Change(k, v);
      }
    }

    /** The requests for changes in place look the object up and set one field. */
    method Change(k: Key, v: Val)
      requires Valid() && FamilyOf(k).Some? && !Persisted(k) && Fits(k, v)
      modifies `objects
      ensures objects == With(old(objects), old(Spare()), FamilyOf(k).value, map[k := v])
    {
      var subject := Subject(k);
      ghost var before, spare := objects, Spare();
      if subject in objects {
        assert Fits(subject, objects[subject]);
        var o := objects[subject];
        if k.LbGroup? {
          objects := objects[subject := o.(grp := v.grp)];
        } else if k.TrashImage? {
          objects := objects[subject := o.(trash := v.trash)];
        } else if k.HostSecret? {
          if k.host != ANY_HOST && (KeyOf(objects, k.nqn) == "" || v.dhchap != "") {
            objects := objects[subject := HostVal(v.dhchap, o.rest)];
          }
        } else if k.SubsystemSecret? {
          objects := objects[subject := SubsysVal(v.dhchap, o.serial, o.rest)];
        } else {
          objects := objects[subject := o.(hidden := !v.visible)];
          if v.visible {
            objects := map x | x in objects && !(x.NsHost? && x.nqn == k.nqn && x.nsid == k.nsid) :: objects[x];
          }
        }
      }
      ChangedIs(before, spare, k, v, objects);
    }

    /** A request to delete the object of a key, and what hangs below it. The block device of a namespace goes with
        it, those of a subsystem's namespaces stay. */
    method Remove(k: Key, v: Val)
      requires Valid() && Persisted(k)
      modifies this
      ensures Valid() && objects == Without(old(objects), map[k := v])
      ensures Spare() == old(Spare()) + Unused(old(objects), map[k := v])
    {
      RemoveKeepsTarget(objects, map[k := v]);
      RemoveKeepsNames(objects, map[k := v]);
      RemoveUses(objects, k, v);
      ghost var before := objects;
      if k in objects && !k.Qos? {
        assert Fits(k, objects[k]);
        if k.Subsystem? {
          objects := map x | x in objects && x.nqn != k.nqn :: objects[x];
        } else if k.Namespace? {
          bdevs := bdevs - {objects[k].uuid};
          objects := map x | x in objects && x != k
                          && !((x.Qos? || x.NsHost?) && x.nqn == k.nqn && x.nsid == k.nsid) :: objects[x];
        } else {
          objects := objects - {k};
        }
      }
      RemovedIs(before, k, v, objects);
    }
  }

  // ----- groups -----

  type Groups = map<Family, State>

  /** The keys of one family. */
  function Group(update: State, f: Family): State {
    map k | k in update && FamilyOf(k) == Some(f) :: update[k]
  }

  /** `dict.get(prefix, {})` */
  function Get(groups: Groups, f: Family): State {
    if f in groups then groups[f] else map[]
  }

  /** `key.startswith(prefix)` */
  method HasPrefix(k: Key, f: Family) returns (yes: bool)
    requires Wf(k)
    ensures yes <==> FamilyOf(k) == Some(f)
  {
    FamilyByPrefix(k, f);
    yes := StartsWith(TextOf(k), PrefixText(f));
  }

  predicate NoneEmpty(groups: Groups) {
    forall f | f in groups :: groups[f] != map[]
  }

  lemma StillNoneEmpty(groups: Groups, f: Family, g: State, k: Key)
    requires k in g
    ensures NoneEmpty(groups) ==> NoneEmpty(groups[f := g])
  {
  }

  method PutInGroups(groups: Groups, k: Key, v: Val, prefixes: seq<Family>) returns (groups': Groups)
    requires Wf(k)
    ensures forall f :: Get(groups', f) ==
              if Some(f) == FamilyOf(k) && f in prefixes then Get(groups, f)[k := v] else Get(groups, f)
    ensures NoneEmpty(groups) ==> NoneEmpty(groups')
  {
    groups' := groups;
    for i := 0 to |prefixes|
      invariant forall f :: Get(groups', f) ==
                  if Some(f) == FamilyOf(k) && f in prefixes[..i] then Get(groups, f)[k := v] else Get(groups, f)
      invariant NoneEmpty(groups) ==> NoneEmpty(groups')
    {
      assert prefixes[..i + 1] == prefixes[..i] + [prefixes[i]];
      var yes := HasPrefix(k, prefixes[i]);
      if yes {
        var group := Get(groups', prefixes[i])[k := v];
        StillNoneEmpty(groups', prefixes[i], group, k);
        groups' := groups'[prefixes[i] := group];
      }
    }
    assert prefixes[..|prefixes|] == prefixes;
  }

  /** Groups a dictionary by the prefixes its key texts start with. */
  method GroupByPrefix(update: State, prefixes: seq<Family>) returns (groups: Groups)
    requires forall k | k in update :: Wf(k)
    ensures forall f :: Get(groups, f) == if f in prefixes then Group(update, f) else map[]
    ensures NoneEmpty(groups)
  {
    groups := map[];
    var todo := update.Keys;
    while todo != {}
      invariant todo <= update.Keys
      invariant forall f :: Get(groups, f) == if f in prefixes then Group(update - todo, f) else map[]
      invariant NoneEmpty(groups)
    {
      var k :| k in todo;
      groups := PutInGroups(groups, k, update[k], prefixes);
      assert todo == (todo - {k}) + {k};
      todo := todo - {k};
      forall f { GroupOneMore(update, todo, k, f); }
    }
    assert update - todo == update;
  }

  lemma GroupOneMore(update: State, todo: set<Key>, k: Key, f: Family)
    requires k in update && k !in todo
    ensures Group(update - todo, f)
         == if Some(f) == FamilyOf(k) then Group(update - (todo + {k}), f)[k := update[k]]
            else Group(update - (todo + {k}), f)
  {
  }

  // ----- sorting out the changed keys -----

  function List(l: State, n: State, f: Family, keys: set<Key>): State {
    map k | k in keys && Listed(l, n, f, k).Some? :: Listed(l, n, f, k).value
  }

  lemma ListOneMore(l: State, n: State, f: Family, keys: set<Key>, k: Key)
    ensures List(l, n, f, keys + {k})
         == if Listed(l, n, f, k).Some? then List(l, n, f, keys)[k := Listed(l, n, f, k).value] else List(l, n, f, keys)
  {
  }

  /** The lists of changes in place. */
  datatype Lists = Lists(lbGroup: State, visibility: State, trash: State, host: State, subsystem: State)

  function AllLists(l: State, n: State, keys: set<Key>): Lists {
    Lists(List(l, n, LbGroupF, keys), List(l, n, VisibilityF, keys), List(l, n, TrashImageF, keys),
          List(l, n, HostSecretF, keys), List(l, n, SubsystemSecretF, keys))
  }

  lemma AllListsOneMore(l: State, n: State, keys: set<Key>, k: Key, lists: Lists)
    requires lists.lbGroup == Plus(List(l, n, LbGroupF, keys), k, Listed(l, n, LbGroupF, k))
    requires lists.visibility == Plus(List(l, n, VisibilityF, keys), k, Listed(l, n, VisibilityF, k))
    requires lists.trash == Plus(List(l, n, TrashImageF, keys), k, Listed(l, n, TrashImageF, k))
    requires lists.host == Plus(List(l, n, HostSecretF, keys), k, Listed(l, n, HostSecretF, k))
    requires lists.subsystem == Plus(List(l, n, SubsystemSecretF, keys), k, Listed(l, n, SubsystemSecretF, k))
    ensures lists == AllLists(l, n, keys + {k})
  {
    ListOneMore(l, n, LbGroupF, keys, k);
    ListOneMore(l, n, VisibilityF, keys, k);
    ListOneMore(l, n, TrashImageF, keys, k);
    ListOneMore(l, n, HostSecretF, keys, k);
    ListOneMore(l, n, SubsystemSecretF, keys, k);
  }

  function Plus(s: State, k: Key, v: Option<Val>): State {
    if v.Some? then s[k := v.value] else s
  }

  lemma ListedForNamespace(l: State, n: State, k: Key)
    requires k.Namespace? && k in l && k in n && l[k] != n[k] && l[k].NsVal? && n[k].NsVal?
    ensures var minor := OnlyMinor(l[k], n[k]);
            && Listed(l, n, LbGroupF, k) == (if minor && l[k].grp != n[k].grp then Some(LbVal(n[k].grp)) else None)
            && Listed(l, n, VisibilityF, k) ==
                 (if minor && l[k].hidden != n[k].hidden then Some(VisVal(!n[k].hidden)) else None)
            && Listed(l, n, TrashImageF, k) ==
                 (if minor && l[k].trash != n[k].trash then Some(TrashVal(n[k].trash)) else None)
            && Listed(l, n, HostSecretF, k) == Listed(l, n, SubsystemSecretF, k) == None
  {
  }

  lemma ListedForOthers(l: State, n: State, k: Key)
    requires !k.Namespace? && k in l && k in n && l[k] != n[k] && Fits(k, l[k]) && Fits(k, n[k])
    ensures Listed(l, n, LbGroupF, k) == Listed(l, n, VisibilityF, k) == Listed(l, n, TrashImageF, k) == None
    ensures Listed(l, n, HostSecretF, k) ==
              if k.Host? && l[k].rest == n[k].rest then Some(SecretVal(n[k].dhchap)) else None
    ensures Listed(l, n, SubsystemSecretF, k) ==
              if k.Subsystem? && l[k].serial == n[k].serial && l[k].rest == n[k].rest
              then Some(SecretVal(n[k].dhchap)) else None
  {
  }

  /** One changed key: the classifiers of its family, in the order of the source. */
  method SortOut(l: State, n: State, k: Key, lists: Lists) returns (lists': Lists)
    requires k in l && k in n && l[k] != n[k] && Wf(k) && Fits(k, l[k]) && Fits(k, n[k])
    ensures lists' == Lists(Plus(lists.lbGroup, k, Listed(l, n, LbGroupF, k)),
                            Plus(lists.visibility, k, Listed(l, n, VisibilityF, k)),
                            Plus(lists.trash, k, Listed(l, n, TrashImageF, k)),
                            Plus(lists.host, k, Listed(l, n, HostSecretF, k)),
                            Plus(lists.subsystem, k, Listed(l, n, SubsystemSecretF, k)))
  {
    lists' := lists;
    if k.Namespace? { ListedForNamespace(l, n, k); } else { ListedForOthers(l, n, k); }
    var isNamespace := HasPrefix(k, NamespaceF);
    var isHost := HasPrefix(k, HostF);
    var isSubsystem := HasPrefix(k, SubsystemF);
    var old_, new_ := l[k], n[k];
    if isNamespace {
      if NeedsReAdd(old_, new_) { return; }
      if old_.grp != new_.grp { lists' := lists'.(lbGroup := lists'.lbGroup[k := LbVal(new_.grp)]); }
      if old_.hidden != new_.hidden { lists' := lists'.(visibility := lists'.visibility[k := VisVal(!new_.hidden)]); }
      if old_.trash != new_.trash { lists' := lists'.(trash := lists'.trash[k := TrashVal(new_.trash)]); }
    } else if isHost {
      if HostVal(new_.dhchap, old_.rest) == new_ {
        lists' := lists'.(host := lists'.host[k := SecretVal(new_.dhchap)]);
      }
    } else if isSubsystem {
      if SubsysVal(new_.dhchap, old_.serial, old_.rest) == new_ {
        lists' := lists'.(subsystem := lists'.subsystem[k := SecretVal(new_.dhchap)]);
      }
    }
  }

  /** Copies the fields that can change in place and looks for further differences. */
  function NeedsReAdd(old_: Val, new_: Val): (r: bool)
    requires old_.NsVal? && new_.NsVal?
    ensures r <==> !OnlyMinor(old_, new_)
    ensures !r <==> (new_.create, new_.uuid, new_.rest) == (old_.create, old_.uuid, old_.rest)
  {
    NsVal(new_.grp, new_.hidden, new_.trash, old_.create, old_.uuid, old_.rest) != new_
  }

  method SortOutAll(l: State, n: State, changed: State) returns (lists: Lists)
    requires WfState(l) && WfState(n) && forall k | k in changed :: k in l && k in n && l[k] != n[k]
    ensures lists == AllLists(l, n, changed.Keys)
  {
    lists := Lists(map[], map[], map[], map[], map[]);
    var todo := changed.Keys;
    while todo != {}
      invariant todo <= changed.Keys && lists == AllLists(l, n, changed.Keys - todo)
    {
      var k :| k in todo;
      ghost var done := changed.Keys - todo;
      lists := SortOut(l, n, k, lists);
      AllListsOneMore(l, n, done, k, lists);
      todo := todo - {k};
      assert changed.Keys - todo == done + {k};
    }
    assert changed.Keys - todo == changed.Keys;
  }

  /** Takes the keys apart again with the `break_*` functions and files a request under the made-up key. */
  method MakeKey(f: Family, k: Key) returns (s: Option<Key>)
    requires InPlaceFamily(f) && Movable(f, k)
    ensures s == MadeKey(f, k)
  {
    BreakInvertsBuild(k.nqn, if k.Namespace? then k.nsid else 0, if k.Host? then k.host else "");
    s := None;
    if f.HostSecretF? {
      var parts := BreakHostKey(TextOf(k));
      if parts.Some? && parts.value.1 != "*" && parts.value.0 != "" && parts.value.1 != "" {
        s := Some(HostSecret(parts.value.0, parts.value.1));
      }
    } else if f.SubsystemSecretF? {
      var nqn := BreakSubsystemKey(TextOf(k));
      if nqn.Some? && nqn.value != "" { s := Some(SubsystemSecret(nqn.value)); }
    } else {
      var parts := BreakNamespaceKey(TextOf(k));
      if parts.Some? && parts.value.0 != "" && parts.value.1 != 0 {
        var (nqn, nsid) := parts.value;
        s := Some(if f.LbGroupF? then LbGroup(nqn, nsid) else if f.VisibilityF? then Visibility(nqn, nsid)
                  else TrashImage(nqn, nsid));
      }
    }
  }

  /** The key `s` is filed for some key on the list. */
  predicate Wanted(f: Family, list: State, s: Key) {
    Subject(s) in list && MadeKey(f, Subject(s)) == Some(s)
  }

  /** `after` is `before` with the requests for the listed keys. */
  ghost predicate Filed(before: State, after: State, f: Family, list: State) {
    && (forall s :: s in after <==> s in before || Wanted(f, list, s))
    && (forall s | s in after :: after[s] == if Wanted(f, list, s) then list[Subject(s)] else before[s])
  }

  lemma WantedOneMore(f: Family, list: State, k: Key, v: Val, s: Key)
    requires k !in list
    ensures Wanted(f, list[k := v], s) <==> Wanted(f, list, s) || MadeKey(f, k) == Some(s)
    ensures MadeKey(f, k) == Some(s) ==> Subject(s) == k
  {
  }

  lemma FiledOneMore(before: State, after: State, f: Family, list: State, k: Key, v: Val)
    requires Filed(before, after, f, list) && k !in list
    ensures MadeKey(f, k).None? ==> Filed(before, after, f, list[k := v])
    ensures MadeKey(f, k).Some? ==> Filed(before, after[MadeKey(f, k).value := v], f, list[k := v])
  {
    var made := MadeKey(f, k);
    var after' := if made.Some? then after[made.value := v] else after;
    forall s ensures s in after' <==> s in before || Wanted(f, list[k := v], s) { WantedOneMore(f, list, k, v, s); }
    forall s | s in after'
      ensures after'[s] == if Wanted(f, list[k := v], s) then list[k := v][Subject(s)] else before[s]
    {
      WantedOneMore(f, list, k, v, s);
    }
  }

  /** One of the five loops that take the listed keys off the changed ones and add a request instead. */
  method MoveInPlace(f: Family, list: State, changed: State, added: State) returns (changed': State, added': State)
    requires InPlaceFamily(f) && forall k | k in list :: Movable(f, k)
    ensures changed' == changed - list.Keys
    ensures Filed(added, added', f, list)
  {
    changed', added' := changed, added;
    var todo := list.Keys;
    ghost var done: State := map[];
    while todo != {}
      invariant done == list - todo && todo <= list.Keys
      invariant changed' == changed - done.Keys && Filed(added, added', f, done)
    {
      var k :| k in todo;
      FiledOneMore(added, added', f, done, k, list[k]);
      changed' := changed' - {k};
      var s := MakeKey(f, k);
      if s.Some? { added' := added'[s.value := list[k]]; }
      todo := todo - {k};
      done := done[k := list[k]];
    }
    assert done == list;
  }

  predicate Movable(f: Family, k: Key) {
    && Wf(k) && (match f case HostSecretF => k.Host? case SubsystemSecretF => k.Subsystem? case _ => k.Namespace?)
    && k.nqn != "" && (k.Namespace? ==> k.nsid != 0) && (k.Host? ==> k.host != "")
  }

  // ----- requests in order -----

  /** A call of the request caller: the group of one prefix. */
  datatype Call = Call(add: bool, family: Family, requests: State)

  function CallFor(add: bool, f: Family, g: State): seq<Call> {
    if g == map[] then [] else [Call(add, f, g)]
  }

  /** The calls of an update's removals, last prefix first. */
  function CallsOut(l: State, n: State, fs: seq<Family>): seq<Call> {
    if fs == [] then []
    else CallFor(false, fs[|fs| - 1], OutGroup(l, n, fs[|fs| - 1])) + CallsOut(l, n, fs[..|fs| - 1])
  }

  /** The calls of an update's additions, first prefix first. */
  function CallsIn(l: State, n: State, fs: seq<Family>): seq<Call> {
    if fs == [] then []
    else CallsIn(l, n, fs[..|fs| - 1]) + CallFor(true, fs[|fs| - 1], InGroup(l, n, fs[|fs| - 1]))
  }

  lemma DoneOneMore(requests: State, todo: set<Key>, k: Key)
    requires k in todo && k in requests
    ensures (requests - todo)[k := requests[k]] == requests - (todo - {k})
  {
  }

  lemma Regroup<T>(a: seq<T>, b: seq<T>, c: seq<T>)
    ensures (a + b) + c == a + (b + c)
  {
  }

  lemma OutStep(t: State, b: set<string>, l: State, n: State, fs: seq<Family>, i: nat)
    requires i < |fs|
    ensures WithoutAll(t, l, n, fs[..i + 1]) == WithoutAll(Without(t, OutGroup(l, n, fs[i])), l, n, fs[..i])
    ensures UnusedAfter(t, b, l, n, fs[..i + 1]) ==
              UnusedAfter(Without(t, OutGroup(l, n, fs[i])), b + Unused(t, OutGroup(l, n, fs[i])), l, n, fs[..i])
    ensures CallsOut(l, n, fs[..i + 1]) == CallFor(false, fs[i], OutGroup(l, n, fs[i])) + CallsOut(l, n, fs[..i])
  {
    assert fs[..i + 1][..i] == fs[..i];
  }

  lemma InStep(t: State, b: set<string>, l: State, n: State, fs: seq<Family>, i: nat)
    requires i < |fs|
    ensures WithAll(t, b, l, n, fs[..i + 1]) == With(WithAll(t, b, l, n, fs[..i]), b, fs[i], InGroup(l, n, fs[i]))
    ensures CallsIn(l, n, fs[..i + 1]) == CallsIn(l, n, fs[..i]) + CallFor(true, fs[i], InGroup(l, n, fs[i]))
  {
    assert fs[..i + 1][..i] == fs[..i];
  }

  lemma OutGroupIsFamily(l: State, n: State, f: Family)
    requires WfState(l) && WfState(n)
    ensures OfFamily(OutGroup(l, n, f), f)
    ensures InPlaceFamily(f) ==> OutGroup(l, n, f) == map[]
  {
  }

  lemma InGroupIsFamily(l: State, n: State, f: Family)
    requires WfState(l) && WfState(n)
    ensures OfFamily(InGroup(l, n, f), f)
  {
    if InPlaceFamily(f) {
      forall s | s in InGroup(l, n, f) ensures FamilyOf(s) == Some(f) && Fits(s, InGroup(l, n, f)[s]) {
        MadeUpGroup(l, n, f, s);
      }
    }
  }

  ghost predicate ChangedKeys(l: State, n: State, keys: set<Key>) {
    forall k :: k in keys <==> Differs(l, n, k)
  }

  lemma ListedIsMovable(l: State, n: State, f: Family, k: Key)
    requires WfState(l) && InPlaceFamily(f) && Listed(l, n, f, k).Some?
    ensures Movable(f, k)
  {
    assert k in l && Wf(k);
  }

  lemma WantedIsMadeUp(l: State, n: State, f: Family, keys: set<Key>, s: Key)
    requires InPlaceFamily(f) && ChangedKeys(l, n, keys)
    ensures Wanted(f, List(l, n, f, keys), s) <==> s in InGroup(l, n, f)
    ensures s in InGroup(l, n, f) ==> InGroup(l, n, f)[s] == List(l, n, f, keys)[Subject(s)] && FamilyOf(s) == Some(f)
  {
    MadeUpGroup(l, n, f, s);
    ListHolds(l, n, f, keys, Subject(s));
  }

  lemma ListHolds(l: State, n: State, f: Family, keys: set<Key>, k: Key)
    requires ChangedKeys(l, n, keys)
    ensures var list := List(l, n, f, keys);
            && (k in list <==> Listed(l, n, f, k).Some?) && (k in list ==> list[k] == Listed(l, n, f, k).value)
  {
  }

  lemma MadeUpIsWf(l: State, n: State, f: Family, s: Key)
    requires WfState(l) && InPlaceFamily(f) && s in InGroup(l, n, f)
    ensures Wf(s)
  {
    MadeUpGroup(l, n, f, s);
    assert Subject(s) in l && Wf(Subject(s));
  }

  lemma FiledAt(l: State, n: State, f: Family, keys: set<Key>, before: State, after: State, s: Key)
    requires InPlaceFamily(f) && ChangedKeys(l, n, keys) && Filed(before, after, f, List(l, n, f, keys))
    ensures s in after <==> s in before || s in InGroup(l, n, f)
    ensures s in after ==> after[s] == if s in InGroup(l, n, f) then InGroup(l, n, f)[s] else before[s]
    ensures s in InGroup(l, n, f) ==> FamilyOf(s) == Some(f)
  {
    WantedIsMadeUp(l, n, f, keys, s);
  }

  lemma GroupIs(u: State, f: Family, g: State)
    requires forall s :: s in g <==> s in u && FamilyOf(s) == Some(f)
    requires forall s | s in g :: g[s] == u[s]
    ensures Group(u, f) == g
  {
  }

  /** A request of one of the families `fs` is made up for the key. */
  predicate Asked(l: State, n: State, fs: set<Family>, s: Key) {
    match FamilyOf(s)
    case None => false
    case Some(f) => f in fs && s in InGroup(l, n, f)
  }

  /** What the loops for the families `fs` have added. */
  ghost predicate AddedSoFar(l: State, n: State, fs: set<Family>, before: State, after: State) {
    && (forall s :: s in after <==> s in before || Asked(l, n, fs, s))
    && (forall s | s in after ::
          after[s] == if Asked(l, n, fs, s) then InGroup(l, n, FamilyOf(s).value)[s] else before[s])
  }

  lemma AskedMore(l: State, n: State, fs: set<Family>, f: Family, s: Key)
    requires s in InGroup(l, n, f) ==> FamilyOf(s) == Some(f)
    ensures Asked(l, n, fs + {f}, s) <==> Asked(l, n, fs, s) || s in InGroup(l, n, f)
  {
  }

  lemma AddedOneMore(l: State, n: State, keys: set<Key>, fs: set<Family>, f: Family, a0: State, a: State, a': State)
    requires InPlaceFamily(f) && ChangedKeys(l, n, keys) && Filed(a, a', f, List(l, n, f, keys))
               && AddedSoFar(l, n, fs, a0, a)
    ensures AddedSoFar(l, n, fs + {f}, a0, a')
  {
    forall s ensures s in a' <==> s in a0 || Asked(l, n, fs + {f}, s) {
      FiledAt(l, n, f, keys, a, a', s);
      AskedMore(l, n, fs, f, s);
    }
    forall s | s in a'
      ensures a'[s] == if Asked(l, n, fs + {f}, s) then InGroup(l, n, FamilyOf(s).value)[s] else a0[s]
    {
      FiledAt(l, n, f, keys, a, a', s);
      AskedMore(l, n, fs, f, s);
    }
  }

  /** What the five loops add: the requests for the changes in place. */
  lemma AddedGroups(l: State, n: State, fs: set<Family>, a0: State, a: State)
    requires WfState(l) && WfState(n) && AddedSoFar(l, n, fs, a0, a) && forall f :: f in fs <==> InPlaceFamily(f)
    requires forall s | s in a0 :: s in n
    ensures forall s | s in a :: Wf(s)
    ensures forall f :: Group(a, f) == if InPlaceFamily(f) then InGroup(l, n, f) else Group(a0, f)
  {
    forall s | s in a ensures Wf(s) {
      if Asked(l, n, fs, s) { MadeUpIsWf(l, n, FamilyOf(s).value, s); } else { assert s in n; }
    }
    forall f ensures Group(a, f) == if InPlaceFamily(f) then InGroup(l, n, f) else Group(a0, f) {
      OneAddedGroup(l, n, fs, a0, a, f);
    }
  }

  lemma OneAddedGroup(l: State, n: State, fs: set<Family>, a0: State, a: State, f: Family)
    requires WfState(l) && WfState(n) && AddedSoFar(l, n, fs, a0, a) && (f in fs <==> InPlaceFamily(f))
    requires forall s | s in a0 :: s in n
    ensures Group(a, f) == if InPlaceFamily(f) then InGroup(l, n, f) else Group(a0, f)
  {
    if InPlaceFamily(f) {
      InGroupIsFamily(l, n, f);
      forall s | FamilyOf(s) == Some(f) ensures s !in a0 { assert s in a0 ==> WfEntry(n, s); }
      GroupIs(a, f, InGroup(l, n, f));
    } else {
      GroupIs(a, f, Group(a0, f));
    }
  }

  lemma InPlaceIsListed(l: State, n: State, k: Key)
    requires WfState(l) && WfState(n) && Differs(l, n, k)
    ensures InPlace(l, n, k) <==>
            || Listed(l, n, LbGroupF, k).Some? || Listed(l, n, VisibilityF, k).Some?
            || Listed(l, n, TrashImageF, k).Some?
            || Listed(l, n, HostSecretF, k).Some? || Listed(l, n, SubsystemSecretF, k).Some?
  {
    assert Fits(k, l[k]) && Fits(k, n[k]);
  }

  lemma ChangedLeft(l: State, n: State, changed: State, left: State)
    requires WfState(l) && WfState(n) && ChangedKeys(l, n, changed.Keys)
    requires var lists := AllLists(l, n, changed.Keys);
             left == changed - lists.lbGroup.Keys - lists.visibility.Keys - lists.trash.Keys - lists.host.Keys
                     - lists.subsystem.Keys
    requires forall k | k in changed :: k in n && changed[k] == n[k]
    ensures HoldsReAdded(l, n, left)
  {
    forall k | Differs(l, n, k) ensures k in left <==> ReAdded(l, n, k) { InPlaceIsListed(l, n, k); }
  }

  ghost predicate HoldsRemoved(l: State, n: State, u: State) {
    (forall k :: k in u <==> Removed(l, n, k)) && forall k | k in u :: k in l && u[k] == l[k]
  }

  ghost predicate HoldsReAdded(l: State, n: State, u: State) {
    (forall k :: k in u <==> ReAdded(l, n, k)) && forall k | k in u :: k in n && u[k] == n[k]
  }

  ghost predicate HoldsAdded(l: State, n: State, u: State) {
    (forall k :: k in u <==> Added(l, n, k)) && forall k | k in u :: k in n && u[k] == n[k]
  }

  lemma NotBusy(l: State, n: State, f: Family, changed: State)
    requires HoldsReAdded(l, n, changed) && Group(changed, f) == map[]
    ensures forall k | FamilyOf(k) == Some(f) :: !ReAdded(l, n, k)
  {
    forall k | FamilyOf(k) == Some(f) ensures !ReAdded(l, n, k) {
      assert k !in Group(changed, f);
    }
  }

  /** `dict.update` on the grouped dictionaries: the changed group of a prefix replaces the removed one. */
  lemma RemovalsToSend(l: State, n: State, f: Family, removed: State, changed: State)
    requires !InPlaceFamily(f) && HoldsRemoved(l, n, removed) && HoldsReAdded(l, n, changed)
    ensures OutGroup(l, n, f) == if Group(changed, f) != map[] then Group(changed, f) else Group(removed, f)
  {
    BusyExactly(l, n, f, changed);
    if Group(changed, f) != map[] {
      GroupIs(changed, f, OutGroup(l, n, f));
    } else {
      NotBusy(l, n, f, changed);
      GroupIs(removed, f, OutGroup(l, n, f));
    }
  }

  /** And it replaces the added one. */
  lemma AdditionsToSend(l: State, n: State, f: Family, added: State, changed: State)
    requires !InPlaceFamily(f) && HoldsAdded(l, n, added) && HoldsReAdded(l, n, changed)
    ensures InGroup(l, n, f) == if Group(changed, f) != map[] then Group(changed, f) else Group(added, f)
  {
    BusyExactly(l, n, f, changed);
    if Group(changed, f) != map[] {
      GroupIs(changed, f, InGroup(l, n, f));
    } else {
      NotBusy(l, n, f, changed);
      OnlyNew(l, n, f, added);
    }
  }

  lemma OnlyNew(l: State, n: State, f: Family, added: State)
    requires !InPlaceFamily(f) && HoldsAdded(l, n, added) && !Busy(l, n, Some(f))
    requires forall k | FamilyOf(k) == Some(f) :: !ReAdded(l, n, k)
    ensures InGroup(l, n, f) == Group(added, f)
  {
    GroupIs(added, f, InGroup(l, n, f));
  }

  lemma BusyExactly(l: State, n: State, f: Family, changed: State)
    requires HoldsReAdded(l, n, changed)
    ensures Busy(l, n, Some(f)) <==> Group(changed, f) != map[]
  {
    if Busy(l, n, Some(f)) {
      var k :| k in n && ReAdded(l, n, k) && FamilyOf(k) == Some(f);
      assert k in Group(changed, f);
    }
    if Group(changed, f) != map[] {
      var k :| k in Group(changed, f);
      assert k in n && ReAdded(l, n, k);
    }
  }

  // ----- the chosen prefixes -----

  /** The families that get appended to the prefix list. */
  function Chosen(lists: Lists): seq<Family> {
    Pick(lists.subsystem != map[], SubsystemSecretF) + Pick(lists.lbGroup != map[], LbGroupF)
    + Pick(lists.visibility != map[], VisibilityF) + Pick(lists.trash != map[], TrashImageF)
    + Pick(lists.host != map[], HostSecretF)
  }

  lemma MinorConcat(fs: seq<Family>, f: Family, b: bool)
    requires AllMinor(fs) && InPlaceFamily(f)
    ensures AllMinor(fs + Pick(b, f))
  {
  }

  lemma ChosenAreMinor(lists: Lists)
    ensures AllMinor(Chosen(lists))
  {
    var p1 := Pick(lists.subsystem != map[], SubsystemSecretF);
    var p2 := p1 + Pick(lists.lbGroup != map[], LbGroupF);
    var p3 := p2 + Pick(lists.visibility != map[], VisibilityF);
    MinorConcat(p1, LbGroupF, lists.lbGroup != map[]);
    MinorConcat(p2, VisibilityF, lists.visibility != map[]);
    MinorConcat(p3, TrashImageF, lists.trash != map[]);
    MinorConcat(p3 + Pick(lists.trash != map[], TrashImageF), HostSecretF, lists.host != map[]);
  }

  lemma {:induction false} NoMinorRemovals(t: State, b: set<string>, l: State, n: State, fs: seq<Family>,
                                           gs: seq<Family>)
    requires WfState(l) && WfState(n) && AllMinor(gs)
    ensures WithoutAll(t, l, n, fs + gs) == WithoutAll(t, l, n, fs) && CallsOut(l, n, fs + gs) == CallsOut(l, n, fs)
    ensures UnusedAfter(t, b, l, n, fs + gs) == UnusedAfter(t, b, l, n, fs)
  {
    if gs == [] {
      assert fs + gs == fs;
    } else {
      var f, rest := gs[|gs| - 1], gs[..|gs| - 1];
      assert (fs + gs)[..|fs + gs| - 1] == fs + rest && (fs + gs)[|fs + gs| - 1] == f;
      OutGroupIsFamily(l, n, f);
      WithNone(t, b, f);
      assert b + {} == b;
      NoMinorRemovals(t, b, l, n, fs, rest);
    }
  }

  /** The same effect and the same calls. */
  ghost predicate Same(t: State, b: set<string>, l: State, n: State, fs: seq<Family>, gs: seq<Family>) {
    WithAll(t, b, l, n, fs) == WithAll(t, b, l, n, gs) && CallsIn(l, n, fs) == CallsIn(l, n, gs)
  }

  lemma LastFamily(t: State, b: set<string>, l: State, n: State, fs: seq<Family>, f: Family)
    ensures WithAll(t, b, l, n, fs + [f]) == With(WithAll(t, b, l, n, fs), b, f, InGroup(l, n, f))
    ensures CallsIn(l, n, fs + [f]) == CallsIn(l, n, fs) + CallFor(true, f, InGroup(l, n, f))
  {
    assert (fs + [f])[..|fs + [f]| - 1] == fs;
  }

  lemma OneMore(t: State, b: set<string>, l: State, n: State, fs: seq<Family>, gs: seq<Family>, f: Family)
    requires Same(t, b, l, n, fs, gs)
    ensures Same(t, b, l, n, fs + [f], gs + [f])
  {
    LastFamily(t, b, l, n, gs, f);
    LastFamily(t, b, l, n, fs, f);
  }

  lemma EmptyOneMore(t: State, b: set<string>, l: State, n: State, fs: seq<Family>, gs: seq<Family>, f: Family)
    requires Same(t, b, l, n, fs, gs) && InGroup(l, n, f) == map[]
    ensures Same(t, b, l, n, fs, gs + [f])
  {
    LastFamily(t, b, l, n, gs, f);
    WithNone(WithAll(t, b, l, n, gs), b, f);
  }

  lemma MaybeOneMore(t: State, b: set<string>, l: State, n: State, fs: seq<Family>, gs: seq<Family>, f: Family,
                     chosen: bool)
    requires Same(t, b, l, n, fs, gs) && (chosen || InGroup(l, n, f) == map[])
    ensures Same(t, b, l, n, fs + Pick(chosen, f), gs + [f])
  {
    if chosen {
      OneMore(t, b, l, n, fs, gs, f);
    } else {
      assert fs + [] == fs;
      EmptyOneMore(t, b, l, n, fs, gs, f);
    }
  }

  lemma UnlistedIsUnasked(l: State, n: State, f: Family, keys: set<Key>)
    requires InPlaceFamily(f) && ChangedKeys(l, n, keys) && List(l, n, f, keys) == map[]
    ensures InGroup(l, n, f) == map[]
  {
    forall s ensures s !in InGroup(l, n, f) {
      WantedIsMadeUp(l, n, f, keys, s);
    }
  }

  /** Leaving out the prefixes without requests changes nothing. */
  lemma ChosenIsEnough(t: State, b: set<string>, l: State, n: State, keys: set<Key>)
    requires ChangedKeys(l, n, keys)
    ensures Same(t, b, l, n, PREFIXES + Chosen(AllLists(l, n, keys)), PREFIXES + MINOR_PREFIXES)
  {
    var lists := AllLists(l, n, keys);
    if lists.subsystem == map[] { UnlistedIsUnasked(l, n, SubsystemSecretF, keys); }
    if lists.lbGroup == map[] { UnlistedIsUnasked(l, n, LbGroupF, keys); }
    if lists.visibility == map[] { UnlistedIsUnasked(l, n, VisibilityF, keys); }
    if lists.trash == map[] { UnlistedIsUnasked(l, n, TrashImageF, keys); }
    if lists.host == map[] { UnlistedIsUnasked(l, n, HostSecretF, keys); }
    ChosenStepByStep(t, b, l, n, PREFIXES, lists.subsystem != map[], lists.lbGroup != map[], lists.visibility != map[],
                     lists.trash != map[], lists.host != map[]);
    FlattenChosen(lists);
  }

  function Pick(b: bool, f: Family): seq<Family> {
    if b then [f] else []
  }

  lemma ChosenStepByStep(t: State, b: set<string>, l: State, n: State, fs: seq<Family>, b1: bool, b2: bool, b3: bool,
                         b4: bool, b5: bool)
    requires b1 || InGroup(l, n, SubsystemSecretF) == map[]
    requires b2 || InGroup(l, n, LbGroupF) == map[]
    requires b3 || InGroup(l, n, VisibilityF) == map[]
    requires b4 || InGroup(l, n, TrashImageF) == map[]
    requires b5 || InGroup(l, n, HostSecretF) == map[]
    ensures Same(t, b, l, n, fs + Pick(b1, SubsystemSecretF) + Pick(b2, LbGroupF) + Pick(b3, VisibilityF)
                            + Pick(b4, TrashImageF) + Pick(b5, HostSecretF),
                          fs + [SubsystemSecretF] + [LbGroupF] + [VisibilityF] + [TrashImageF] + [HostSecretF])
  {
    var p1, q1 := fs + Pick(b1, SubsystemSecretF), fs + [SubsystemSecretF];
    var p2, q2 := p1 + Pick(b2, LbGroupF), q1 + [LbGroupF];
    var p3, q3 := p2 + Pick(b3, VisibilityF), q2 + [VisibilityF];
    var p4, q4 := p3 + Pick(b4, TrashImageF), q3 + [TrashImageF];
    MaybeOneMore(t, b, l, n, fs, fs, SubsystemSecretF, b1);
    MaybeOneMore(t, b, l, n, p1, q1, LbGroupF, b2);
    MaybeOneMore(t, b, l, n, p2, q2, VisibilityF, b3);
    MaybeOneMore(t, b, l, n, p3, q3, TrashImageF, b4);
    MaybeOneMore(t, b, l, n, p4, q4, HostSecretF, b5);
  }

  lemma FlattenChosen(lists: Lists)
    ensures PREFIXES + Pick(lists.subsystem != map[], SubsystemSecretF) + Pick(lists.lbGroup != map[], LbGroupF)
            + Pick(lists.visibility != map[], VisibilityF) + Pick(lists.trash != map[], TrashImageF)
            + Pick(lists.host != map[], HostSecretF) == PREFIXES + Chosen(lists)
    ensures PREFIXES + [SubsystemSecretF] + [LbGroupF] + [VisibilityF] + [TrashImageF] + [HostSecretF] ==
              PREFIXES + MINOR_PREFIXES
  {
    Flatten(PREFIXES, Pick(lists.subsystem != map[], SubsystemSecretF), Pick(lists.lbGroup != map[], LbGroupF),
            Pick(lists.visibility != map[], VisibilityF), Pick(lists.trash != map[], TrashImageF),
            Pick(lists.host != map[], HostSecretF));
  }

  lemma Flatten<T>(fs: seq<T>, a: seq<T>, b: seq<T>, c: seq<T>, d: seq<T>, e: seq<T>)
    ensures fs + a + b + c + d + e == fs + (a + b + c + d + e)
  {
    Regroup(fs, a, b);
    Regroup(fs, a + b, c);
    Regroup(fs, a + b + c, d);
    Regroup(fs, a + b + c + d, e);
  }

  lemma ReplayedInOneGo(t: State, o: set<string>, l: State, n: State)
    ensures var b := UnusedAfter(t, o, l, n, PREFIXES);
            Replayed(t, o, l, n) == WithAll(WithoutAll(t, l, n, PREFIXES), b, l, n, PREFIXES + MINOR_PREFIXES)
  {
    var b := UnusedAfter(t, o, l, n, PREFIXES);
    WithAllSplit(WithoutAll(t, l, n, PREFIXES), b, l, n, PREFIXES, MINOR_PREFIXES);
  }

  // ----- the groups of an update -----

  ghost predicate RightRemovals(groups: Groups, prefixes: seq<Family>, l: State, n: State) {
    forall f | f in prefixes :: Get(groups, f) == OutGroup(l, n, f)
  }

  ghost predicate RightAdditions(groups: Groups, prefixes: seq<Family>, l: State, n: State) {
    forall f | f in prefixes :: Get(groups, f) == InGroup(l, n, f)
  }

  function DifferingKeys(l: State, n: State): set<Key> {
    set k | k in n && Differs(l, n, k)
  }

  /** The prefix list of an update. */
  function PrefixesFor(l: State, n: State): seq<Family> {
    PREFIXES + Chosen(AllLists(l, n, DifferingKeys(l, n)))
  }

  /** The first half of the update: what to remove and what to add, grouped by prefix. */
  method SortByPrefix(l: State, n: State) returns (removals: Groups, additions: Groups, prefixes: seq<Family>)
    requires WfState(l) && WfState(n)
    ensures prefixes == PrefixesFor(l, n) && RightRemovals(removals, prefixes, l, n)
              && RightAdditions(additions, prefixes, l, n)
  {
    var added := map k | k in n && k !in l :: n[k];
    var changed := map k | k in n && k in l && l[k] != n[k] :: n[k];
    assert changed.Keys == DifferingKeys(l, n);
    var lists := SortOutAll(l, n, changed);
    prefixes := PREFIXES + Chosen(lists);
    var added1, changed1 := MoveAllInPlace(l, n, lists, added, changed);
    var removed := map k | k in l && k !in n :: l[k];
    removals, additions := GroupAll(l, n, prefixes, removed, added, added1, changed1);
  }

  method GroupAll(ghost l: State, ghost n: State, prefixes: seq<Family>, removed: State, ghost added0: State,
                  added: State, changed: State)
    returns (removals: Groups, additions: Groups)
    requires WfState(l) && WfState(n)
    requires HoldsRemoved(l, n, removed) && HoldsAdded(l, n, added0) && HoldsReAdded(l, n, changed)
    requires forall k | k in added :: Wf(k)
    requires forall f :: Group(added, f) == if InPlaceFamily(f) then InGroup(l, n, f) else Group(added0, f)
    ensures RightRemovals(removals, prefixes, l, n) && RightAdditions(additions, prefixes, l, n)
  {
    assert forall k | k in changed :: k in n && Wf(k);
    assert forall k | k in removed :: k in l && Wf(k);
    var groupedChanged := GroupByPrefix(changed, PREFIXES);
    var groupedAdded := GroupByPrefix(added, prefixes);
    var groupedRemoved := GroupByPrefix(removed, prefixes);
    removals, additions := groupedRemoved + groupedChanged, groupedAdded + groupedChanged;
    forall f | f in prefixes ensures Get(removals, f) == OutGroup(l, n, f) {
      SentOutTogether(l, n, f, removed, changed, groupedRemoved, groupedChanged);
    }
    forall f | f in prefixes ensures Get(additions, f) == InGroup(l, n, f) {
      SentInTogether(l, n, f, added0, added, changed, groupedAdded, groupedChanged);
    }
  }

  /** The five loops, in the order of the source. */
  method MoveAllInPlace(l: State, n: State, lists: Lists, added: State, changed: State)
    returns (added': State, changed': State)
    requires WfState(l) && WfState(n) && ChangedKeys(l, n, changed.Keys) && lists == AllLists(l, n, changed.Keys)
    requires forall k | k in changed :: k in n && changed[k] == n[k]
    requires forall k | k in added :: k in n
    ensures HoldsReAdded(l, n, changed')
    ensures forall k | k in added' :: Wf(k)
    ensures forall f :: Group(added', f) == if InPlaceFamily(f) then InGroup(l, n, f) else Group(added, f)
  {
    ghost var keys := changed.Keys;
    assert AddedSoFar(l, n, {}, added, added);
    changed', added' := MoveOneKind(l, n, LbGroupF, lists.lbGroup, changed, added, {}, keys, added);
    ghost var fs := {} + {LbGroupF};
    changed', added' := MoveOneKind(l, n, VisibilityF, lists.visibility, changed', added', fs, keys, added);
    fs := fs + {VisibilityF};
    changed', added' := MoveOneKind(l, n, TrashImageF, lists.trash, changed', added', fs, keys, added);
    fs := fs + {TrashImageF};
    changed', added' := MoveOneKind(l, n, HostSecretF, lists.host, changed', added', fs, keys, added);
    fs := fs + {HostSecretF};
    changed', added' := MoveOneKind(l, n, SubsystemSecretF, lists.subsystem, changed', added', fs, keys, added);
    fs := fs + {SubsystemSecretF};
    ChangedLeft(l, n, changed, changed');
    AddedGroups(l, n, fs, added, added');
  }

  method MoveOneKind(ghost l: State, ghost n: State, f: Family, list: State, changed: State, added: State,
                     ghost fs: set<Family>, ghost keys: set<Key>, ghost added0: State)
    returns (changed': State, added': State)
    requires WfState(l) && InPlaceFamily(f) && ChangedKeys(l, n, keys) && list == List(l, n, f, keys)
    requires AddedSoFar(l, n, fs, added0, added)
    ensures changed' == changed - list.Keys && AddedSoFar(l, n, fs + {f}, added0, added')
  {
    forall k | k in list ensures Movable(f, k) { ListedIsMovable(l, n, f, k); }
    changed', added' := MoveInPlace(f, list, changed, added);
    AddedOneMore(l, n, keys, fs, f, added0, added, added');
  }

  lemma ReplacedGroup(base: Groups, over: Groups, f: Family)
    requires NoneEmpty(over)
    ensures Get(base + over, f) == if Get(over, f) != map[] then Get(over, f) else Get(base, f)
  {
  }

  lemma StoredPrefix(f: Family)
    ensures f in PREFIXES <==> !InPlaceFamily(f)
  {
    if !InPlaceFamily(f) {
      var ps := PREFIXES;
      assert ps[0] == SubsystemF && ps[1] == HostF && ps[2] == NamespaceF && ps[3] == QosF && ps[4] == NsHostF
               && ps[5] == ListenerF;
    }
  }

  lemma NoMinorRemoved(l: State, n: State, f: Family, removed: State)
    requires InPlaceFamily(f) && WfState(l) && HoldsRemoved(l, n, removed)
    ensures Group(removed, f) == map[]
  {
    forall k | k in removed ensures FamilyOf(k) != Some(f) { assert WfEntry(l, k); }
    GroupIs(removed, f, map[]);
  }

  lemma SentOutTogether(l: State, n: State, f: Family, removed: State, changed: State,
                        groupedRemoved: Groups, groupedChanged: Groups)
    requires WfState(l) && WfState(n) && HoldsRemoved(l, n, removed) && HoldsReAdded(l, n, changed)
    requires Get(groupedRemoved, f) == Group(removed, f)
    requires Get(groupedChanged, f) == if f in PREFIXES then Group(changed, f) else map[]
    requires NoneEmpty(groupedChanged)
    ensures Get(groupedRemoved + groupedChanged, f) == OutGroup(l, n, f)
  {
    StoredPrefix(f);
    ReplacedGroup(groupedRemoved, groupedChanged, f);
    if InPlaceFamily(f) {
      OutGroupIsFamily(l, n, f);
      NoMinorRemoved(l, n, f, removed);
    } else {
      RemovalsToSend(l, n, f, removed, changed);
    }
  }

  lemma SentInTogether(l: State, n: State, f: Family, added0: State, added: State, changed: State,
                       groupedAdded: Groups, groupedChanged: Groups)
    requires HoldsAdded(l, n, added0) && HoldsReAdded(l, n, changed)
    requires Group(added, f) == if InPlaceFamily(f) then InGroup(l, n, f) else Group(added0, f)
    requires Get(groupedAdded, f) == Group(added, f)
    requires Get(groupedChanged, f) == if f in PREFIXES then Group(changed, f) else map[]
    requires NoneEmpty(groupedChanged)
    ensures Get(groupedAdded + groupedChanged, f) == InGroup(l, n, f)
  {
    StoredPrefix(f);
    ReplacedGroup(groupedAdded, groupedChanged, f);
    if !InPlaceFamily(f) { AdditionsToSend(l, n, f, added0, changed); }
  }

  lemma WholeUpdate(t: State, o: set<string>, l: State, n: State)
    requires WfState(l) && WfState(n)
    ensures var fs := PrefixesFor(l, n);
            var b := UnusedAfter(t, o, l, n, fs);
            && WithAll(WithoutAll(t, l, n, fs), b, l, n, fs) == Replayed(t, o, l, n)
            && b == UnusedAfter(t, o, l, n, PREFIXES)
            && CallsOut(l, n, fs) == CallsOut(l, n, PREFIXES)
            && CallsIn(l, n, fs) == CallsIn(l, n, PREFIXES + MINOR_PREFIXES)
  {
    var keys, b := DifferingKeys(l, n), UnusedAfter(t, o, l, n, PREFIXES);
    ChosenAreMinor(AllLists(l, n, keys));
    NoMinorRemovals(t, o, l, n, PREFIXES, Chosen(AllLists(l, n, keys)));
    ChosenIsEnough(WithoutAll(t, l, n, PREFIXES), b, l, n, keys);
    ReplayedInOneGo(t, o, l, n);
  }

  /** No two keys that are sent have the same name. */
  ghost predicate SentDistinct(l: State, n: State) {
    forall k, x | k in n && x in n && SentIn(l, n, k) && SentIn(l, n, x) :: !Clashes(k, n[k], x, n[x])
  }

  lemma GroupsDistinct(l: State, n: State, f: Family)
    requires WfState(l) && WfState(n) && SentDistinct(l, n)
    ensures Distinct(InGroup(l, n, f))
  {
    InGroupIsFamily(l, n, f);
  }

  lemma ClashingTarget(l: State, n: State, o: set<string>, t: State)
    requires WfState(l) && WfState(n) && Distinct(t) && !SentDistinct(l, n)
    ensures t != Installed(n) && !Clean(l, n, o)
  {
    var k, x :| k in n && x in n && SentIn(l, n, k) && SentIn(l, n, x) && Clashes(k, n[k], x, n[x]);
    assert Live(n, k) && Live(n, x);
    var g := Installed(n);
    assert k in g && x in g && Clashes(k, g[k], x, g[x]);
  }

  /** A target that an update leaves agrees with the shared state exactly when the pair is clean. */
  lemma UpdateConverges(l: State, n: State, o: set<string>, t: State)
    requires WfState(l) && WfState(n) && Distinct(t)
    requires SentDistinct(l, n) ==> t == Replayed(Installed(l), o, l, n)
    ensures t == Installed(n) <==> Clean(l, n, o)
  {
    if SentDistinct(l, n) { ReplayConverges(l, n, o); } else { ClashingTarget(l, n, o, t); }
  }

  class GatewayStateHandler {
    const target: SpdkTarget
    var local: State
    var version: nat
    /** The calls of the request caller so far. */
    var calls: seq<Call>

    constructor (t: SpdkTarget)
      ensures target == t && local == map[] && version == 0 && calls == []
    {
      target, local, version, calls := t, map[], 0, [];
    }

    /** Sends the add requests of a group one by one, in any order. It is the same for all orders unless two
        requests have the same name. */
    method SendAdds(requests: State, f: Family)
      requires target.Valid() && OfFamily(requests, f)
      modifies target
      ensures target.Valid() && target.Spare() == old(target.Spare())
      ensures Distinct(requests) ==> target.objects == With(old(target.objects), old(target.Spare()), f, requests)
    {
      ghost var t, b := target.objects, target.Spare();
      WithNone(t, b, f);
      var todo := requests.Keys;
      ghost var done: State := map[];
      while todo != {}
        invariant todo <= requests.Keys && done == requests - todo
        invariant target.Valid() && target.Spare() == b
        invariant Distinct(requests) ==> target.objects == With(t, b, f, done)
      {
        var k :| k in todo;
        assert FamilyOf(k) == Some(f) && Fits(k, requests[k]);
        assert OfFamily(done, f);
        DoneOneMore(requests, todo, k);
        if Distinct(requests) {
          assert Distinct(done[k := requests[k]]);
          WithOneMore(t, b, f, done, k, requests[k]);
        }
        target.Add(k, requests[k]);
        todo := todo - {k};
        done := done[k := requests[k]];
      }
      assert done == requests;
    }

    /** Sends the removal requests of a group one by one, in any order. */
    method SendRemovals(requests: State, f: Family)
      requires target.Valid() && OfFamily(requests, f) && !InPlaceFamily(f)
      modifies target
      ensures target.Valid() && target.objects == Without(old(target.objects), requests)
      ensures target.Spare() == old(target.Spare()) + Unused(old(target.objects), requests)
    {
      ghost var t, b := target.objects, target.Spare();
      WithNone(t, b, f);
      var todo := requests.Keys;
      ghost var done: State := map[];
      while todo != {}
        invariant todo <= requests.Keys && done == requests - todo
        invariant target.Valid()
        invariant target.objects == Without(t, done) && target.Spare() == b + Unused(t, done)
      {
        var k :| k in todo;
        assert FamilyOf(k) == Some(f);
        WithoutOneMore(t, done, k, requests[k]);
        UnusedOneMore(t, done, k, requests[k], f);
        target.Remove(k, requests[k]);
        DoneOneMore(requests, todo, k);
        todo := todo - {k};
        done := done[k := requests[k]];
      }
      assert done == requests;
    }

    /** Nothing is called for an empty group. */
    method CallGroup(update: State, isAdd: bool, f: Family)
      requires target.Valid() && OfFamily(update, f) && (!isAdd && InPlaceFamily(f) ==> update == map[])
      modifies target, `calls
      ensures target.Valid() && calls == old(calls) + CallFor(isAdd, f, update)
      ensures isAdd ==> target.Spare() == old(target.Spare())
      ensures isAdd && Distinct(update) ==>
                target.objects == With(old(target.objects), old(target.Spare()), f, update)
      ensures !isAdd ==> target.objects == Without(old(target.objects), update)
      ensures !isAdd ==> target.Spare() == old(target.Spare()) + Unused(old(target.objects), update)
    {
      WithNone(target.objects, target.Spare(), f);
      if update != map[] {
        calls := calls + [Call(isAdd, f, update)];
        if isAdd { SendAdds(update, f); } else { SendRemovals(update, f); }
      }
    }

    /** Removals go through the prefixes backwards. */
    method CallRemovals(groups: Groups, prefixes: seq<Family>, ghost l: State, ghost n: State)
      requires target.Valid() && WfState(l) && WfState(n)
      requires RightRemovals(groups, prefixes, l, n)
      modifies target, `calls
      ensures target.Valid() && target.objects == WithoutAll(old(target.objects), l, n, prefixes)
      ensures target.Spare() == UnusedAfter(old(target.objects), old(target.Spare()), l, n, prefixes)
      ensures calls == old(calls) + CallsOut(l, n, prefixes)
    {
      var i := |prefixes|;
      assert prefixes[..i] == prefixes;
      ghost var end, all := WithoutAll(target.objects, l, n, prefixes), calls + CallsOut(l, n, prefixes);
      ghost var spare := UnusedAfter(target.objects, target.Spare(), l, n, prefixes);
      while i > 0
        invariant 0 <= i <= |prefixes| && target.Valid()
        invariant WithoutAll(target.objects, l, n, prefixes[..i]) == end
        invariant UnusedAfter(target.objects, target.Spare(), l, n, prefixes[..i]) == spare
        invariant calls + CallsOut(l, n, prefixes[..i]) == all
      {
        i := i - 1;
        ghost var t, c := target.objects, calls;
        OutStep(t, target.Spare(), l, n, prefixes, i);
        OutGroupIsFamily(l, n, prefixes[i]);
        CallGroup(Get(groups, prefixes[i]), false, prefixes[i]);
        Regroup(c, CallFor(false, prefixes[i], OutGroup(l, n, prefixes[i])), CallsOut(l, n, prefixes[..i]));
      }
    }

    /** Additions go through the prefixes forwards. */
    method CallAdditions(groups: Groups, prefixes: seq<Family>, ghost l: State, ghost n: State)
      requires target.Valid() && WfState(l) && WfState(n)
      requires RightAdditions(groups, prefixes, l, n)
      modifies target, `calls
      ensures target.Valid() && target.Spare() == old(target.Spare())
      ensures SentDistinct(l, n) ==>
                target.objects == WithAll(old(target.objects), old(target.Spare()), l, n, prefixes)
      ensures calls == old(calls) + CallsIn(l, n, prefixes)
    {
      ghost var start, before, b := target.objects, calls, target.Spare();
      for i := 0 to |prefixes|
        invariant target.Valid() && target.Spare() == b
        invariant SentDistinct(l, n) ==> target.objects == WithAll(start, b, l, n, prefixes[..i])
        invariant calls == before + CallsIn(l, n, prefixes[..i])
      {
        InStep(start, b, l, n, prefixes, i);
        InGroupIsFamily(l, n, prefixes[i]);
        if SentDistinct(l, n) { GroupsDistinct(l, n, prefixes[i]); }
        CallGroup(Get(groups, prefixes[i]), true, prefixes[i]);
        Regroup(before, CallsIn(l, n, prefixes[..i]), CallFor(true, prefixes[i], InGroup(l, n, prefixes[i])));
      }
      assert prefixes[..|prefixes|] == prefixes;
    }

    method CallAll(removals: Groups, additions: Groups, prefixes: seq<Family>, ghost l: State, ghost n: State)
      requires WfState(l) && WfState(n) && target.Valid() && prefixes == PrefixesFor(l, n)
      requires RightRemovals(removals, prefixes, l, n) && RightAdditions(additions, prefixes, l, n)
      modifies target, `calls
      ensures target.Valid() && target.Sent(l, n)
      ensures calls == old(calls) + CallsOut(l, n, PREFIXES) + CallsIn(l, n, PREFIXES + MINOR_PREFIXES)
    {
      WholeUpdate(target.objects, target.Spare(), l, n);
      CallRemovals(removals, prefixes, l, n);
      CallAdditions(additions, prefixes, l, n);
    }

    /** The update from the local state to a newer shared state. From a target that agrees with the local state it
        comes to one that agrees with the shared state exactly on the clean pairs. */
    method Update(omap: State, omapVersion: nat) returns (updated: bool)
      requires WfState(local) && WfState(omap) && target.Valid()
      modifies this, target
      ensures target.Valid() && (updated <==> old(version) < omapVersion)
      ensures !updated ==> unchanged(this) && unchanged(target)
      ensures updated ==> local == omap && version == omapVersion && target.Sent(old(local), omap)
      ensures updated && old(target.objects) == Installed(old(local)) ==>
                (target.objects == Installed(omap) <==> Clean(old(local), omap, old(target.Spare())))
      ensures updated ==>
                calls == old(calls) + CallsOut(old(local), omap, PREFIXES)
                         + CallsIn(old(local), omap, PREFIXES + MINOR_PREFIXES)
    {
      updated := version < omapVersion;
      if updated {
        SendDifference(omap);
        local, version := omap, omapVersion;
      }
    }

    /** Sorts out the difference to the shared state and sends it. */
    method SendDifference(omap: State)
      requires WfState(local) && WfState(omap) && target.Valid()
      modifies target, `calls
      ensures target.Valid() && target.Sent(local, omap)
      ensures old(target.objects) == Installed(local) ==>
                (target.objects == Installed(omap) <==> Clean(local, omap, old(target.Spare())))
      ensures calls == old(calls) + CallsOut(local, omap, PREFIXES) + CallsIn(local, omap, PREFIXES + MINOR_PREFIXES)
    {
      var removals, additions, prefixes := SortByPrefix(local, omap);
      ghost var o, agreed := target.Spare(), target.objects == Installed(local);
      CallAll(removals, additions, prefixes, local, omap);
      if agreed { UpdateConverges(local, omap, o, target.objects); }
    }
  }
}
