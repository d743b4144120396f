/** The two state stores of a gateway as the source writes them: a dictionary of its own, and the OMAP
    object it shares with the other gateways, written by compare-and-set and read page by page. */
module GatewayState {
  import opened Text
  import opened StateKeys
  import opened StateOps

  class LocalGatewayState {
    var state: map<string, string>

    constructor ()
      ensures state == map[]
    {
      state := map[];
    }

    method AddKey(key: string, val: string)
      modifies this
      ensures state == old(state)[key := val]
    {
      state := state[key := val];
    }

    /** `dict.pop`: false stands for KeyError. */
    method RemoveKey(key: string) returns (found: bool)
      modifies this
      ensures found <==> key in old(state)
      ensures state == old(state) - {key}
    {
      found := key in state;
      state := state - {key};
    }

    /** One handler call on the gateway's own copy: the whole operation, or nothing when the head key
        of an unguarded removal is missing. */
    method Perform(op: Op) returns (ok: bool)
      modifies this
      ensures ok <==> !LocalRaisesText(op, old(state))
      ensures state == LocalHalfText(op, old(state))
    {
      if op.Set? {
        AddKey(TextOf(op.k), op.v);
        assert CascadeTexts(op, state) == {};
        return true;
      }
      var head := TextOf(HeadKey(op));
      if !op.DropIfPresent? || head in state {
        var found := RemoveKey(head);
        if !found { return false; }
      }
      assert state == old(state) - {head};
      ghost var headless := state;
      var keys := state.Keys;
      while keys != {}
        invariant keys <= headless.Keys
        invariant state == headless - (CascadeTexts(op, headless) - keys)
      {
        var key :| key in keys;
        keys := keys - {key};
        if CascadesText(op, key) {
          var found := RemoveKey(key);
        }
      }
      ok := true;
    }
  }

  /** The shared object. `version` is the number stored under the version key. */
  class OmapObject {
    var version: nat
    var kv: map<string, string>
  }

  // ----- key order -----

  predicate Less(a: string, b: string) {
    b != "" && (a == "" || a[0] < b[0] || (a[0] == b[0] && Less(a[1..], b[1..])))
  }

  lemma {:induction false} LessTotal(a: string, b: string)
    ensures !(Less(a, b) && Less(b, a)) && (Less(a, b) || Less(b, a) || a == b) && !Less(a, a)
  {
    if a != "" {
      LessTotal(a[1..], a[1..]);
      if b != "" && a[0] == b[0] {
        LessTotal(a[1..], b[1..]);
        assert a == [a[0]] + a[1..] && b == [b[0]] + b[1..];
      }
    }
  }

  lemma {:induction false} LessTransitive(a: string, b: string, c: string)
    requires Less(a, b) && Less(b, c)
    ensures Less(a, c)
  {
    if a != "" && a[0] == b[0] == c[0] { LessTransitive(a[1..], b[1..], c[1..]); }
  }

  function LastOf(after: string, page: seq<string>): string {
    if page == [] then after else page[|page| - 1]
  }

  /** A reply to "the values after this key": an increasing run of the stored keys after `after`, with
      no stored key skipped, cut at a length the server chooses but not empty while keys are left. */
  ghost predicate IsPage(kv: map<string, string>, after: string, page: seq<string>) {
    && (forall i | 0 <= i < |page| :: page[i] in kv && Less(after, page[i]))
    && (forall i, j | 0 <= i < j < |page| :: Less(page[i], page[j]))
    && (forall k | k in kv && Less(after, k) && (page == [] || !Less(LastOf(after, page), k)) :: k in page)
  }

  /** The smallest of a set of keys. */
  method LeastKey(keys: set<string>) returns (least: string)
    requires keys != {}
    ensures least in keys && forall k | k in keys :: !Less(k, least)
    decreases |keys|
  {
    var x :| x in keys;
    LessTotal(x, x);
    if keys == {x} { return x; }
    var y := LeastKey(keys - {x});
    LessTotal(x, y);
    if Less(x, y) {
      forall k | k in keys ensures !Less(k, x) {
        if k != x && Less(k, x) { LessTransitive(k, x, y); }
      }
      least := x;
    } else {
      least := y;
    }
  }

  /** The server's reply; where it cuts the page is arbitrary. */
  method GetOmapVals(kv: map<string, string>, after: string) returns (page: seq<string>)
    ensures IsPage(kv, after, page)
  {
    page := [];
    var left := set k | k in kv && Less(after, k);
    var more := true;
    while left != {} && more
      invariant left == set k | k in kv && Less(after, k) && k !in page
      invariant forall i | 0 <= i < |page| :: page[i] in kv && Less(after, page[i])
      invariant forall i, j | 0 <= i < j < |page| :: Less(page[i], page[j])
      invariant forall i, k | 0 <= i < |page| && k in left :: Less(page[i], k)
      invariant page != [] || more
      decreases |left|
    {
      var least := LeastKey(left);
      forall k | k in left - {least} ensures Less(least, k) { LessTotal(least, k); }
      page, left, more := page + [least], left - {least}, *;
    }
    forall k | k in kv && Less(after, k) && (page == [] || !Less(LastOf(after, page), k)) ensures k in page {
      assert k in page || k in left;
    }
  }

  lemma ChosenTexts(op: Op, cascades: string -> bool, kv: map<string, string>)
    requires forall t :: cascades(t) == CascadesText(op, t)
    ensures Chosen(cascades, kv) == CascadeTexts(op, kv)
  {
  }

  lemma NothingCascades(op: Op, kv: map<string, string>)
    requires op.Set?
    ensures CascadeTexts(op, kv) == {}
  {
  }

  class OmapGatewayState {
    const omap: OmapObject
    var version: nat

    constructor (omap: OmapObject)
      ensures this.omap == omap && version == 1
    {
      this.omap := omap;
      version := 1;
    }

    /** `_add_key`: one atomic write that fails unless the stored version is this gateway's version. */
    method AddKey(key: string, val: string) returns (ok: bool)
      modifies this`version, omap
      ensures ok <==> old(version == omap.version)
      ensures ok ==> version == omap.version == old(version) + 1 && omap.kv == old(omap.kv)[key := val]
      ensures !ok ==> version == old(version) && omap.version == old(omap.version) && omap.kv == old(omap.kv)
    {
      if omap.version != version { return false; }
      omap.kv, omap.version := omap.kv[key := val], version + 1;
      version := version + 1;
      ok := true;
    }

    /** `_remove_key`: removing a key that is not stored succeeds and still consumes a version. */
    method RemoveKey(key: string) returns (ok: bool)
      modifies this`version, omap
      ensures ok <==> old(version == omap.version)
      ensures ok ==> version == omap.version == old(version) + 1 && omap.kv == old(omap.kv) - {key}
      ensures !ok ==> version == old(version) && omap.version == old(omap.version) && omap.kv == old(omap.kv)
    {
      if omap.version != version { return false; }
      omap.kv, omap.version := omap.kv - {key}, version + 1;
      version := version + 1;
      ok := true;
    }

    /** `read_omap_values`: whatever page lengths the server chooses, the pages put together are exactly
        the stored map, and the loop ends after at most one call per key and one empty reply. */
    method ReadOmapValues() returns (values: map<string, string>, calls: nat)
      requires "" !in omap.kv
      ensures values == omap.kv
      ensures 1 <= calls <= |omap.kv| + 1
    {
      values, calls := map[], 0;
      var last := "";
      var more := true;
      while more
        invariant ReadUpTo(omap.kv, last, values)
        invariant calls <= |values.Keys| + (if more then 0 else 1)
        invariant more || (values.Keys == omap.kv.Keys && calls > 0)
        decreases more, |omap.kv.Keys| - |values.Keys|
      {
        var page := GetOmapVals(omap.kv, last);
        ghost var before, from := values, last;
        values := values + map k | k in page :: omap.kv[k];
        last, calls, more := LastOf(last, page), calls + 1, page != [];
        PageExtends(omap.kv, from, page, before, values);
      }
      assert |values.Keys| == |omap.kv.Keys|;
    }

    /** The removal loop of a handler call: one compare-and-set removal per cascading key. */
    method EraseCascade(cascades: string -> bool) returns (ok: bool)
      requires "" !in omap.kv
      modifies this`version, omap
      ensures old(version == omap.version) ==>
                && ok && omap.kv == old(omap.kv) - Chosen(cascades, old(omap.kv))
                && version == omap.version == old(version) + |Chosen(cascades, old(omap.kv))|
      ensures old(version != omap.version) ==>
                omap.kv == old(omap.kv) && omap.version == old(omap.version) && version == old(version)
    {
      ghost var kv0, current := omap.kv, version == omap.version;
      var values, calls := ReadOmapValues();
      var keys := values.Keys;
      ghost var gone: set<string> := {};
      while keys != {}
        invariant gone <= Chosen(cascades, kv0) <= gone + keys && gone !! keys && keys <= kv0.Keys
        invariant omap.kv == kv0 - gone
        invariant current ==> version == omap.version == old(version) + |gone|
        invariant !current ==> gone == {} && version == old(version) && omap.version == old(omap.version)
      {
        var key :| key in keys;
        keys := keys - {key};
        if cascades(key) {
          ok := RemoveKey(key);
          if !ok { return; }
          EraseOne(kv0, gone, key);
          gone := gone + {key};
        }
      }
      assert gone == Chosen(cascades, kv0);
      ok := true;
    }

    /** One handler call on the OMAP. For a gateway that holds the current version the stored map becomes
        the whole operation's result and every write consumes one version; otherwise nothing is written. */
    method Perform(op: Op) returns (ok: bool)
      requires "" !in omap.kv
      modifies this`version, omap
      ensures old(version == omap.version) ==>
                && ok && omap.kv == OmapHalfText(op, old(omap.kv))
                && version == omap.version == old(version) + OmapWrites(op, old(omap.kv))
      ensures old(version != omap.version) ==>
                omap.kv == old(omap.kv) && omap.version == old(omap.version) && version == old(version)
    {
      var head := TextOf(HeadKey(op));
      if op.Set? {
        ok := AddKey(head, op.v);
        NothingCascades(op, omap.kv);
        NothingCascades(op, old(omap.kv));
        return;
      }
      var values, calls := ReadOmapValues();
      if !op.DropIfPresent? || head in values {
        ok := RemoveKey(head);
        if !ok { return; }
      }
      assert omap.kv == old(omap.kv) - {head};
      var cascades := (t: string) => CascadesText(op, t);
      ChosenTexts(op, cascades, omap.kv);
      ok := EraseCascade(cascades);
    }
  }

  /** `GatewayStateHandler`'s adds and removes: the OMAP half, then the local half. */
  class GatewayStateHandler {
    const local: LocalGatewayState
    const omap: OmapGatewayState

    constructor (local: LocalGatewayState, omap: OmapGatewayState)
      ensures this.local == local && this.omap == omap
    {
      this.local, this.omap := local, omap;
    }

    /** One handler call: `written` says that the OMAP half is done, `ok` that the local half did not raise. When
        the two copies were equal and the gateway current, they are equal afterwards exactly if the head key was
        stored or nothing cascades. On the string form of a structured state `m`, both halves do what the
        structured operation does, and the two results are the same when the operation fits a closed `m`. */
    method Perform(op: Op, ghost m: map<Key, string>) returns (written: bool, ok: bool)
      requires "" !in omap.omap.kv
      modifies local, omap`version, omap.omap
      ensures old(omap.version == omap.omap.version) ==>
                && written && omap.omap.kv == OmapHalfText(op, old(omap.omap.kv))
                && omap.version == omap.omap.version == old(omap.version) + OmapWrites(op, old(omap.omap.kv))
      ensures old(omap.version != omap.omap.version) ==>
                && omap.omap.kv == old(omap.omap.kv) && omap.omap.version == old(omap.omap.version)
                && omap.version == old(omap.version)
      ensures local.state == if written then LocalHalfText(op, old(local.state)) else old(local.state)
      ensures ok <==> written && !LocalRaisesText(op, old(local.state))
      ensures old(omap.version == omap.omap.version && local.state == omap.omap.kv) ==>
                (local.state == omap.omap.kv <==> AgreeingText(op, old(local.state)))
      ensures WfOp(op)
              && old(omap.version == omap.omap.version && Encodes(omap.omap.kv, m) && Encodes(local.state, m)) ==>
                && Encodes(omap.omap.kv, OmapHalf(op, m)) && Encodes(local.state, LocalHalf(op, m))
                && (Allowed(op, m) && Closed(m.Keys) ==> LocalHalf(op, m) == OmapHalf(op, m))
    {
      if WfOp(op) && Encodes(omap.omap.kv, m) { StringsRefineKeys(op, omap.omap.kv, m); }
      if WfOp(op) && Encodes(local.state, m) { StringsRefineKeys(op, local.state, m); }
      if Allowed(op, m) && Closed(m.Keys) { OpKeepsClosed(op, m); }
      HalvesAgreeText(op, local.state);
      written := omap.Perform(op);
      ok := false;
      if written { ok := local.Perform(op); }
    }
  }

  lemma EraseOne(kv: map<string, string>, gone: set<string>, key: string)
    requires key !in gone
    ensures (kv - gone) - {key} == kv - (gone + {key})
    ensures |gone + {key}| == |gone| + 1
  {}

  function Chosen(p: string -> bool, s: map<string, string>): set<string> {
    set t | t in s && p(t)
  }

  /** How many compare-and-set writes an operation makes. */
  function OmapWrites(op: Op, s: map<string, string>): nat {
    var head := TextOf(HeadKey(op));
    if op.Set? then 1
    else (if op.DropIfPresent? && head !in s then 0 else 1) + |CascadeTexts(op, s - {head})|
  }

  /** The pages so far: the entries up to key `last`. */
  ghost predicate ReadUpTo(kv: map<string, string>, last: string, values: map<string, string>) {
    && values.Keys <= kv.Keys && (forall k | k in values :: values[k] == kv[k])
    && (forall k | k in kv :: k in values <==> !Less(last, k))
  }

  lemma PageCovers(kv: map<string, string>, last: string, page: seq<string>, values: map<string, string>, k: string)
    requires IsPage(kv, last, page) && ReadUpTo(kv, last, values) && k in kv
    ensures k in values || k in page <==> !Less(LastOf(last, page), k)
  {
    var end := LastOf(last, page);
    LessTotal(k, end);
    if k in page {
      var i :| 0 <= i < |page| && page[i] == k;
      LessTotal(k, k);
      if i < |page| - 1 { assert Less(page[i], page[|page| - 1]); }
    } else if k in values && page != [] && Less(end, k) {
      LessTransitive(last, end, k);
    }
  }

  lemma PageSizes(kv: map<string, string>, last: string, page: seq<string>, values: map<string, string>,
                  values': map<string, string>)
    requires IsPage(kv, last, page) && ReadUpTo(kv, last, values) && values'.Keys <= kv.Keys
    requires forall k :: k in values' <==> k in values || k in page
    ensures |values.Keys| + (if page == [] then 0 else 1) <= |values'.Keys| <= |kv.Keys|
    ensures page == [] ==> values'.Keys == kv.Keys
  {
    SubsetCard(values'.Keys, kv.Keys);
    if page != [] {
      var end := page[|page| - 1];
      assert end in page && end !in values;
      SubsetCard(values.Keys + {end}, values'.Keys);
    } else {
      forall k | k in kv ensures k in values { PageCovers(kv, last, page, values, k); }
      assert values'.Keys == values.Keys;
    }
  }

  lemma PageExtends(kv: map<string, string>, last: string, page: seq<string>, values: map<string, string>,
                    values': map<string, string>)
    requires IsPage(kv, last, page) && ReadUpTo(kv, last, values)
    requires values' == values + map k | k in page :: kv[k]
    ensures ReadUpTo(kv, LastOf(last, page), values')
    ensures |values.Keys| + (if page == [] then 0 else 1) <= |values'.Keys| <= |kv.Keys|
    ensures page == [] ==> values'.Keys == kv.Keys
  {
    forall k | k in kv ensures k in values' <==> !Less(LastOf(last, page), k) { PageCovers(kv, last, page, values, k); }
    PageSizes(kv, last, page, values, values');
  }

  lemma SubsetCard<T>(a: set<T>, b: set<T>)
    requires a <= b
    ensures |a| <= |b|
  {
    assert b == a + (b - a);
  }
}
