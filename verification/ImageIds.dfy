/** The list of gateway namespaces that use an RBD image, kept as one text in the image's metadata. */
module ImageIds {
  import opened Text

  datatype ImageId = ImageId(group: Option<string>, subsys: Option<string>, uuid: Option<string>)

  const METADATA_KEY_IMAGE_ID := "NVME_IMAGE_IDENTIFICATION"

  function Replaced(s: string): string {
    if s == "" then "" else [if s[0] == DELIMITER then '-' else s[0]] + Replaced(s[1..])
  }

  /** The constructor: a group name must not contain the delimiter, so it is replaced. */
  function MakeId(group: Option<string>, subsys: Option<string>, uuid: Option<string>): ImageId {
    ImageId(if group.Some? then Some(Replaced(group.value)) else None, subsys, uuid)
  }

  lemma {:induction false} ReplacedIsFree(s: string)
    ensures Free(Replaced(s)) && (Free(s) ==> Replaced(s) == s)
  {
    if s != "" {
      ReplacedIsFree(s[1..]);
      assert s == [s[0]] + s[1..];
    }
  }

  /** A component in a format string: None is written as a word. */
  function Shown(c: Option<string>): string {
    if c.Some? then c.value else "None"
  }

  predicate FreeId(id: ImageId) {
    Free(Shown(id.group)) && Free(Shown(id.subsys)) && Free(Shown(id.uuid))
  }

  predicate Complete(id: ImageId) {
    id.group.Some? && id.subsys.Some? && id.uuid.Some?
  }

  /** The identification as it is read back. */
  function Reread(id: ImageId): ImageId {
    ImageId(Some(Shown(id.group)), Some(Shown(id.subsys)), Some(Shown(id.uuid)))
  }

  function Three(id: ImageId): seq<string> {
    [Shown(id.group), Shown(id.subsys), Shown(id.uuid)]
  }

  /** `str(id)` */
  function Rendered(id: ImageId): string {
    Shown(id.group) + [DELIMITER] + Shown(id.subsys) + [DELIMITER] + Shown(id.uuid)
  }

  /** The text of one identification and of two, character by character; a missing component is written as a word. */
  lemma TextsOfLists(g: string, s: string, u: string, id: ImageId)
    ensures ListText([ImageId(Some(g), Some(s), Some(u))]) == g + "_" + s + "_" + u
    ensures ListText([ImageId(Some(g), Some(s), Some(u)), id]) == g + "_" + s + "_" + u + "_" + Rendered(id)
    ensures Rendered(ImageId(None, None, None)) == "None_None_None" && ListText([]) == ""
  {
    var a := ImageId(Some(g), Some(s), Some(u));
    AppendText([], a);
    AppendText([a], id);
    assert [] + [a] == [a] && [a] + [id] == [a, id];
    NoneText();
  }

  lemma NoneText()
    ensures Rendered(ImageId(None, None, None)) == "None_None_None"
  {
    assert "None" + [DELIMITER] + "None" + [DELIMITER] + "None" == "None_None_None";
  }

  lemma {:induction false} ReplacedIs(s: string)
    ensures |Replaced(s)| == |s| && forall i | 0 <= i < |s| :: Replaced(s)[i] == if s[i] == '_' then '-' else s[i]
  {
    if s != "" { ReplacedIs(s[1..]); }
  }

  function Parts(ids: seq<ImageId>): seq<string> {
    if ids == [] then [] else Three(ids[0]) + Parts(ids[1..])
  }

  /** The text of a list. */
  function ListText(ids: seq<ImageId>): string {
    if ids == [] then "" else Join(Parts(ids))
  }

  /** The text with a delimiter after every identification. */
  function Trailing(ids: seq<ImageId>): string {
    if ids == [] then "" else ListText(ids) + [DELIMITER]
  }

  lemma {:induction false} PartsAppend(ids: seq<ImageId>, id: ImageId)
    ensures Parts(ids + [id]) == Parts(ids) + Three(id)
  {
    if ids == [] {
      assert ids + [id] == [id];
    } else {
      assert (ids + [id])[1..] == ids[1..] + [id];
      PartsAppend(ids[1..], id);
    }
  }

  lemma AppendText(ids: seq<ImageId>, id: ImageId)
    ensures ListText(ids + [id]) == Trailing(ids) + Rendered(id)
  {
    PartsAppend(ids, id);
    if ids == [] {
      assert Parts(ids) + Three(id) == Three(id);
      OneText(Shown(id.group), Shown(id.subsys), Shown(id.uuid));
    } else {
      ThreeMore(Parts(ids), Shown(id.group), Shown(id.subsys), Shown(id.uuid));
    }
  }

  lemma OneText(a: string, b: string, c: string)
    ensures Join([a, b, c]) == a + [DELIMITER] + b + [DELIMITER] + c
  {
    JoinAppend([a], b);
    JoinAppend([a, b], c);
    assert [a] + [b] == [a, b] && [a, b] + [c] == [a, b, c];
  }

  lemma ThreeMore(p: seq<string>, a: string, b: string, c: string)
    requires p != []
    ensures Join(p + [a, b, c]) == Join(p) + [DELIMITER] + (a + [DELIMITER] + b + [DELIMITER] + c)
  {
    JoinAppend(p, a);
    JoinAppend(p + [a], b);
    JoinAppend(p + [a] + [b], c);
    assert p + [a] + [b] + [c] == p + [a, b, c];
  }

  /** Three parts at a time; a rest of one or two parts is a ValueError. */
  function Triples(parts: seq<string>): Option<seq<ImageId>> {
    if parts == [] then Some([])
    else if |parts| < 3 then None
    else match Triples(parts[3..])
         case None => None
         case Some(ids) => Some([MakeId(Some(parts[0]), Some(parts[1]), Some(parts[2]))] + ids)
  }

  function Parse(s: string): Option<seq<ImageId>> {
    Triples(Split(s))
  }

  function RereadAll(ids: seq<ImageId>): seq<ImageId> {
    seq(|ids|, i requires 0 <= i < |ids| => Reread(ids[i]))
  }

  lemma TriplesStep(id: ImageId, rest: seq<string>, more: seq<ImageId>)
    requires FreeId(id) && AllFree(rest) && Triples(rest) == Some(more)
    ensures Triples(Three(id) + rest) == Some([Reread(id)] + more) && AllFree(Three(id) + rest)
  {
    var parts := Three(id) + rest;
    assert parts[3..] == rest;
    ReplacedIsFree(Shown(id.group));
    forall i | 0 <= i < |parts| ensures Free(parts[i]) {
      if i >= 3 { assert parts[i] == rest[i - 3]; }
    }
  }

  lemma {:induction false} TriplesOfParts(ids: seq<ImageId>)
    requires forall i | 0 <= i < |ids| :: FreeId(ids[i])
    ensures Triples(Parts(ids)) == Some(RereadAll(ids)) && AllFree(Parts(ids))
  {
    if ids == [] {
      assert RereadAll(ids) == [];
    } else {
      TriplesOfParts(ids[1..]);
      TriplesStep(ids[0], Parts(ids[1..]), RereadAll(ids[1..]));
      assert RereadAll(ids) == [Reread(ids[0])] + RereadAll(ids[1..]);
    }
  }

  /** Parsing the text of a list gives the list back, with missing components read as the word "None". */
  lemma ParseOfText(ids: seq<ImageId>)
    requires ids != [] && forall i | 0 <= i < |ids| :: FreeId(ids[i])
    ensures Parse(ListText(ids)) == Some(RereadAll(ids))
  {
    TriplesOfParts(ids);
    SplitJoin(Parts(ids));
  }

  lemma {:induction false} PartsOfTriples(parts: seq<string>)
    requires AllFree(parts) && Triples(parts).Some?
    ensures Parts(Triples(parts).value) == parts
    ensures forall i | 0 <= i < |Triples(parts).value| ::
              FreeId(Triples(parts).value[i]) && Complete(Triples(parts).value[i])
  {
    if parts != [] {
      var rest := parts[3..];
      assert AllFree(rest);
      PartsOfTriples(rest);
      var ids, more := Triples(parts).value, Triples(rest).value;
      FirstOfTriples(parts);
      OneMoreId(ids[0], more);
      assert parts == [parts[0], parts[1], parts[2]] + rest;
    }
  }

  lemma OneMoreId(id: ImageId, more: seq<ImageId>)
    requires FreeId(id) && Complete(id) && forall i | 0 <= i < |more| :: FreeId(more[i]) && Complete(more[i])
    ensures var ids := [id] + more;
            && Parts(ids) == Three(id) + Parts(more)
            && forall i | 0 <= i < |ids| :: FreeId(ids[i]) && Complete(ids[i])
  {
    var ids := [id] + more;
    assert ids[1..] == more;
    forall i | 0 <= i < |ids| ensures FreeId(ids[i]) && Complete(ids[i]) { assert i == 0 || ids[i] == more[i - 1]; }
  }

  lemma FirstOfTriples(parts: seq<string>)
    requires AllFree(parts) && parts != [] && Triples(parts).Some?
    ensures |parts| >= 3 && Triples(parts[3..]).Some? && Triples(parts).value != []
    ensures var id := Triples(parts).value[0]; Three(id) == [parts[0], parts[1], parts[2]] && FreeId(id) && Complete(id)
    ensures Triples(parts).value == [Triples(parts).value[0]] + Triples(parts[3..]).value
  {
    ReplacedIsFree(parts[0]);
  }

  /** And whatever text parses is the text of the list it parses to. */
  lemma TextOfParse(s: string)
    requires Parse(s).Some?
    ensures Parse(s).value != [] && ListText(Parse(s).value) == s
    ensures forall i | 0 <= i < |Parse(s).value| :: FreeId(Parse(s).value[i]) && Complete(Parse(s).value[i])
  {
    PartsOfTriples(Split(s));
    JoinSplit(s);
  }

  /** Text parses exactly when its number of parts is a multiple of three. */
  lemma {:induction false} ParsesExactly(parts: seq<string>)
    ensures Triples(parts).Some? <==> |parts| % 3 == 0
  {
    if |parts| >= 3 { ParsesExactly(parts[3..]); }
  }

  /** What the metadata says: nothing when it is missing, empty or not understood. */
  function Stored(metadata: map<string, string>): seq<ImageId> {
    if METADATA_KEY_IMAGE_ID !in metadata || metadata[METADATA_KEY_IMAGE_ID] == "" then []
    else match Parse(metadata[METADATA_KEY_IMAGE_ID])
         case None => []
         case Some(ids) => ids
  }

  function Without(ids: seq<ImageId>, id: ImageId): (r: seq<ImageId>)
    ensures id !in r && forall x | x in r :: x in ids
  {
    if ids == [] then []
    else
      var rest := Without(ids[..|ids| - 1], id);
      if ids[|ids| - 1] == id then rest else rest + [ids[|ids| - 1]]
  }

  /** What is kept keeps its order. */
  lemma {:induction false} WithoutKeepsOrder(a: seq<ImageId>, b: seq<ImageId>, id: ImageId)
    ensures Without(a + b, id) == Without(a, id) + Without(b, id)
    ensures forall x :: Without([x], id) == if x == id then [] else [x]
  {
    if b == [] {
      assert a + b == a;
    } else {
      assert (a + b)[..|a + b| - 1] == a + b[..|b| - 1];
      WithoutKeepsOrder(a, b[..|b| - 1], id);
    }
  }

  lemma {:induction false} WithoutKeepsOthers(ids: seq<ImageId>, id: ImageId)
    ensures multiset(Without(ids, id)) == multiset(ids)[id := 0]
    ensures id !in ids ==> Without(ids, id) == ids
  {
    if ids != [] {
      assert ids == ids[..|ids| - 1] + [ids[|ids| - 1]];
      WithoutKeepsOthers(ids[..|ids| - 1], id);
    }
  }

  /** The metadata after an identification was added to the list `ids`. */
  function AfterSet(metadata: map<string, string>, ids: seq<ImageId>, id: ImageId): map<string, string> {
    if id in ids then metadata else metadata[METADATA_KEY_IMAGE_ID := ListText(ids + [id])]
  }

  /** The metadata after an identification was taken off the list `ids`. */
  function AfterDelete(metadata: map<string, string>, ids: seq<ImageId>, id: ImageId): map<string, string> {
    if Without(ids, id) == [] then metadata - {METADATA_KEY_IMAGE_ID}
    else metadata[METADATA_KEY_IMAGE_ID := ListText(Without(ids, id))]
  }

  lemma StoredIsComplete(metadata: map<string, string>)
    ensures var ids := Stored(metadata);
            forall i | 0 <= i < |ids| :: FreeId(ids[i]) && Complete(ids[i])
    ensures RereadAll(Stored(metadata)) == Stored(metadata)
  {
    if METADATA_KEY_IMAGE_ID in metadata && Parse(metadata[METADATA_KEY_IMAGE_ID]).Some? {
      TextOfParse(metadata[METADATA_KEY_IMAGE_ID]);
    }
  }

  lemma StoredText(metadata: map<string, string>, ids: seq<ImageId>)
    requires ids != [] && forall i | 0 <= i < |ids| :: FreeId(ids[i])
    ensures Stored(metadata[METADATA_KEY_IMAGE_ID := ListText(ids)]) == RereadAll(ids)
  {
    TextNotEmpty(ids);
    ParseOfText(ids);
  }

  /** Setting adds the identification, as it reads back, at most once. */
  lemma SetAddsOnce(metadata: map<string, string>, id: ImageId)
    requires FreeId(id)
    ensures var ids := Stored(metadata);
            Stored(AfterSet(metadata, ids, id)) == if id in ids then ids else ids + [Reread(id)]
    ensures forall k | k != "NVME_IMAGE_IDENTIFICATION" ::
              var after := AfterSet(metadata, Stored(metadata), id);
              (k in after <==> k in metadata) && (k in after ==> after[k] == metadata[k])
  {
    var ids := Stored(metadata);
    StoredIsComplete(metadata);
    if id !in ids {
      StoredText(metadata, ids + [id]);
      assert RereadAll(ids + [id]) == RereadAll(ids) + [Reread(id)];
    }
  }

  /** Setting twice is setting once exactly for an identification without missing components: a missing one
      reads back as a word, so the identification is never found again. */
  lemma SetIsIdempotentExactly(metadata: map<string, string>, id: ImageId)
    requires FreeId(id)
    ensures var once := AfterSet(metadata, Stored(metadata), id);
            AfterSet(once, Stored(once), id) == once <==> Complete(id)
  {
    var once := AfterSet(metadata, Stored(metadata), id);
    var twice := AfterSet(once, Stored(once), id);
    SetAddsOnce(metadata, id);
    StoredIsComplete(metadata);
    StoredIsComplete(once);
    if Complete(id) {
      assert Reread(id) == id;
      assert id in Stored(once);
    } else {
      assert id !in Stored(once);
      SetAddsOnce(once, id);
      assert |Stored(twice)| == |Stored(once)| + 1;
    }
  }

  lemma {:induction false} WithoutIsSublist(ids: seq<ImageId>, id: ImageId)
    requires forall i | 0 <= i < |ids| :: FreeId(ids[i]) && Complete(ids[i])
    ensures var kept := Without(ids, id);
            (forall i | 0 <= i < |kept| :: FreeId(kept[i]) && Complete(kept[i])) && RereadAll(kept) == kept
  {
    var kept := Without(ids, id);
    forall i | 0 <= i < |kept| ensures FreeId(kept[i]) && Complete(kept[i]) { assert kept[i] in ids; }
  }

  /** Deleting takes every equal identification off the list and nothing else. */
  lemma DeleteRemovesAll(metadata: map<string, string>, id: ImageId)
    ensures var ids := Stored(metadata);
            Stored(AfterDelete(metadata, ids, id)) == Without(ids, id)
    ensures forall k | k != "NVME_IMAGE_IDENTIFICATION" ::
              var after := AfterDelete(metadata, Stored(metadata), id);
              (k in after <==> k in metadata) && (k in after ==> after[k] == metadata[k])
  {
    StoredIsComplete(metadata);
    WithoutIsSublist(Stored(metadata), id);
    var kept := Without(Stored(metadata), id);
    if kept != [] { StoredText(metadata, kept); }
  }

  /** Setting a fresh identification and deleting it restores the list. */
  lemma SetThenDelete(metadata: map<string, string>, id: ImageId)
    requires FreeId(id) && Complete(id) && id !in Stored(metadata)
    ensures var once := AfterSet(metadata, Stored(metadata), id);
            Stored(AfterDelete(once, Stored(once), id)) == Stored(metadata)
  {
    var ids := Stored(metadata);
    var once := AfterSet(metadata, ids, id);
    SetAddsOnce(metadata, id);
    DeleteRemovesAll(once, id);
    assert Stored(once) == ids + [id];
    assert (ids + [id])[..|ids + [id]| - 1] == ids;
    WithoutKeepsOthers(ids, id);
  }

  function Prefixed(ids: seq<ImageId>, o: Option<seq<ImageId>>): Option<seq<ImageId>> {
    match o
    case None => None
    case Some(rest) => Some(ids + rest)
  }

  lemma PrefixedMore(ids: seq<ImageId>, id: ImageId, o: Option<seq<ImageId>>)
    ensures Prefixed(ids + [id], o) == Prefixed(ids, Prefixed([id], o))
  {
    if o.Some? { assert (ids + [id]) + o.value == ids + ([id] + o.value); }
  }

  class Image {
    var exists_: bool
    var metadata: map<string, string>

    /** The parsing loop. */
    static method ParseIds(s: string) returns (r: Option<seq<ImageId>>)
      ensures r == Parse(s)
    {
      var parts := Split(s);
      var ids: seq<ImageId> := [];
      assert forall x: seq<ImageId> :: [] + x == x;
      while parts != []
        invariant Parse(s) == Prefixed(ids, Triples(parts))
        decreases |parts|
      {
        if |parts| < 3 { return None; }
        var id := MakeId(Some(parts[0]), Some(parts[1]), Some(parts[2]));
        PrefixedMore(ids, id, Triples(parts[3..]));
        ids := ids + [id];
        parts := parts[3..];
      }
      r := Some(ids);
      assert ids + [] == ids;
    }

    /** `readable` is false when reading the metadata fails with anything but a missing key. */
    method GetImageIdentification(readable: bool) returns (ids: seq<ImageId>)
      ensures ids == if exists_ && readable then Stored(metadata) else []
    {
      if !exists_ || !readable || METADATA_KEY_IMAGE_ID !in metadata { return []; }
      var text := metadata[METADATA_KEY_IMAGE_ID];
      if text == "" { return []; }
      var parsed := ParseIds(text);
      ids := if parsed.Some? then parsed.value else [];
    }

    /** Adds an identification to the list unless it is there. */
    method SetImageIdentification(id: ImageId, readable: bool, writable: bool)
      modifies `metadata
      ensures var ids := if exists_ && readable then Stored(old(metadata)) else [];
              metadata == if exists_ && writable then AfterSet(old(metadata), ids, id) else old(metadata)
    {
      var value := "";
      var ids := GetImageIdentification(readable);
      for i := 0 to |ids|
        invariant metadata == old(metadata) && id !in ids[..i] && value == Trailing(ids[..i])
      {
        if ids[i] == id { return; }
        AppendText(ids[..i], ids[i]);
        assert ids[..i + 1] == ids[..i] + [ids[i]];
        value := value + Rendered(ids[i]) + [DELIMITER];
      }
      assert ids[..|ids|] == ids;
      AppendText(ids, id);
      value := value + Rendered(id);
      if exists_ && writable { metadata := metadata[METADATA_KEY_IMAGE_ID := value]; }
    }

    /** Takes an identification off the list. */
    method DeleteImageIdentification(id: ImageId, readable: bool, writable: bool)
      modifies `metadata
      ensures var ids := if exists_ && readable then Stored(old(metadata)) else [];
              metadata == if exists_ && writable then AfterDelete(old(metadata), ids, id) else old(metadata)
    {
      var value := "";
      var ids := GetImageIdentification(readable);
      for i := 0 to |ids|
        invariant metadata == old(metadata) && value == Trailing(Without(ids[..i], id))
      {
        assert ids[..i + 1][..i] == ids[..i];
        if ids[i] == id { continue; }
        AppendText(Without(ids[..i], id), ids[i]);
        value := value + Rendered(ids[i]) + [DELIMITER];
      }
      assert ids[..|ids|] == ids;
      ghost var kept := Without(ids, id);
      value := RemoveSuffix(value);
      assert kept != [] ==> value == ListText(kept) && value != "" by { if kept != [] { TextNotEmpty(kept); } }
      if exists_ && writable {
        metadata := if value == "" then metadata - {METADATA_KEY_IMAGE_ID}
                    else metadata[METADATA_KEY_IMAGE_ID := value];
      }
    }
  }

  function RemoveSuffix(s: string): string {
    if s != "" && s[|s| - 1] == DELIMITER then s[..|s| - 1] else s
  }

  lemma TextNotEmpty(ids: seq<ImageId>)
    requires ids != []
    ensures ListText(ids) != ""
  {
    assert ids == ids[..|ids| - 1] + [ids[|ids| - 1]];
    AppendText(ids[..|ids| - 1], ids[|ids| - 1]);
  }
}
