/** Verifying a live readiness patch: comparing whole API objects, and the JSON Patch that makes the change. */
module Readiness {
  import opened Text
  import opened ScopePaths
  import opened KubernetesBody

  // ---- JSON documents --------------------------------------------------------------------------

  datatype Json =
    | Null | Bool(b: bool) | Num(n: int) | Dec(x: real) | Str(s: string)
    | Arr(items: seq<Json>) | Obj(fields: map<string, Json>)

  datatype Key = Field(name: string) | Index(at: nat)

  type Place = seq<Key>

  /** The member or item a key selects. */
  function Child(j: Json, k: Key): Option<Json> {
    match k
    case Field(name) => if j.Obj? && name in j.fields then Some(j.fields[name]) else None
    case Index(i) => if j.Arr? && i < |j.items| then Some(j.items[i]) else None
  }

  function Lookup(j: Json, p: Place): Option<Json> {
    if p == [] then Some(j)
    else match Child(j, p[0]) case None => None case Some(c) => Lookup(c, p[1..])
  }

  /** `dict.pop` at the end of a path of dictionaries; nothing happens where the path ends early. */
  function Drop(j: Json, path: seq<string>): Json
    requires path != []
    decreases |path|
  {
    if !j.Obj? || path[0] !in j.fields then j
    else if |path| == 1 then Obj(j.fields - {path[0]})
    else Obj(j.fields[path[0] := Drop(j.fields[path[0]], path[1..])])
  }

  /** Overwriting an existing value. */
  function SetAt(j: Json, p: Place, v: Json): Json
    requires Lookup(j, p).Some?
    decreases |p|
  {
    if p == [] then v
    else
      match p[0]
      case Field(name) => Obj(j.fields[name := SetAt(j.fields[name], p[1..], v)])
      case Index(i) => Arr(j.items[i := SetAt(j.items[i], p[1..], v)])
  }

  /** Python's `==` compares truth values, integers and decimals as numbers: it compares these. */
  function Canon(j: Json): Json {
    match j
    case Bool(b) => Dec(if b then 1.0 else 0.0)
    case Num(n) => Dec(n as real)
    case Arr(items) => Arr(seq(|items|, i requires 0 <= i < |items| => Canon(items[i])))
    case Obj(fields) => Obj(map k | k in fields :: Canon(fields[k]))
    case _ => j
  }

  predicate PyEqual(a: Json, b: Json) {
    Canon(a) == Canon(b)
  }

  /** Equal as far as Python can tell, or both absent. */
  predicate Alike(a: Option<Json>, b: Option<Json>) {
    match (a, b)
    case (None, None) => true
    case (Some(x), Some(y)) => PyEqual(x, y)
    case _ => false
  }

  function Fields(path: seq<string>): Place {
    seq(|path|, i requires 0 <= i < |path| => Field(path[i]))
  }

  /** Neither place contains the other. */
  predicate Apart(p: Place, q: Place) {
    !(p <= q) && !(q <= p)
  }

  // ---- Frames ----------------------------------------------------------------------------------

  function CanonOf(o: Option<Json>): Option<Json> {
    match o case None => None case Some(x) => Some(Canon(x))
  }

  lemma {:induction false} CanonLookup(j: Json, p: Place)
    ensures Lookup(Canon(j), p) == CanonOf(Lookup(j, p))
    decreases |p|
  {
    if p != [] {
      CanonChild(j, p[0]);
      if Child(j, p[0]).Some? {
        CanonLookup(Child(j, p[0]).value, p[1..]);
      }
    }
  }

  lemma CanonChild(j: Json, k: Key)
    ensures Child(Canon(j), k) == CanonOf(Child(j, k))
  {
  }

  lemma {:induction false} DropFrame(j: Json, path: seq<string>, p: Place)
    requires path != [] && Apart(Fields(path), p)
    ensures Lookup(Drop(j, path), p) == Lookup(j, p)
    decreases |path|
  {
    assert Fields(path)[0] == Field(path[0]);
    assert Fields(path)[1..] == Fields(path[1..]);
    assert p != [] by {
      assert p == [] ==> p <= Fields(path);
    }
    assert |path| == 1 && p[0] == Field(path[0]) ==> Fields(path) <= p;
    if j.Obj? && path[0] in j.fields && |path| > 1 && p[0] == Field(path[0]) {
      assert Fields(path) == [p[0]] + Fields(path[1..]) && p == [p[0]] + p[1..];
      DropFrame(j.fields[path[0]], path[1..], p[1..]);
    }
  }

  lemma {:induction false} SetFrame(j: Json, q: Place, v: Json, p: Place)
    requires Lookup(j, q).Some? && Apart(q, p)
    ensures Lookup(SetAt(j, q, v), p) == Lookup(j, p)
    decreases |q|
  {
    assert q != [] && p != [] by {
      assert q == [] ==> q <= p;
      assert p == [] ==> p <= q;
    }
    if p[0] == q[0] {
      assert q == [q[0]] + q[1..] && p == [p[0]] + p[1..];
      SetFrame(Child(j, q[0]).value, q[1..], v, p[1..]);
    }
  }

  lemma {:induction false} SetThere(j: Json, q: Place, v: Json)
    requires Lookup(j, q).Some?
    ensures Lookup(SetAt(j, q, v), q) == Some(v)
    decreases |q|
  {
    if q != [] {
      SetThere(Child(j, q[0]).value, q[1..], v);
    }
  }

  lemma {:induction false} SetBack(j: Json, q: Place, v: Json)
    requires Lookup(j, q).Some? && Lookup(SetAt(j, q, v), q).Some?
    ensures SetAt(SetAt(j, q, v), q, Lookup(j, q).value) == j
    decreases |q|
  {
    if q != [] {
      var c := Child(j, q[0]).value;
      SetThere(c, q[1..], v);
      SetBack(c, q[1..], v);
      var once := SetAt(j, q, v);
      match q[0] {
        case Field(name) =>
          assert SetAt(once, q, Lookup(j, q).value).fields == j.fields;
        case Index(i) =>
          assert SetAt(once, q, Lookup(j, q).value).items == j.items;
      }
    }
  }

  // ---- The readiness container -----------------------------------------------------------------

  const CONTAINERS := [Field("spec"), Field("template"), Field("spec"), Field("containers")]
  const TIMEOUT := [Field("readinessProbe"), Field("timeoutSeconds")]

  function TimeoutPlace(index: nat): (p: Place)
    ensures p == [Field("spec"), Field("template"), Field("spec"), Field("containers"), Index(index),
      Field("readinessProbe"), Field("timeoutSeconds")]
  {
    CONTAINERS + [Index(index)] + TIMEOUT
  }

  function NameOf(j: Json): Option<string> {
    match Child(j, Field("name")) case Some(Str(s)) => Some(s) case _ => None
  }

  datatype Slot = Slot(index: nat, timeout: int)

  /** Every container has a valid name, no name is used twice, and `index` is the one called `name`. */
  ghost predicate Named(items: seq<Json>, name: string, index: nat) {
    && index < |items| && NameOf(items[index]) == Some(name)
    && (forall i :: 0 <= i < |items| ==> NameOf(items[i]).Some? && IsDnsLabel(NameOf(items[i]).value))
    && (forall i, j :: 0 <= i < j < |items| ==> NameOf(items[i]) != NameOf(items[j]))
  }

  /** `_readiness_container` answers `slot`; where no slot qualifies it raises. */
  ghost predicate HasSlot(obj: Json, name: string, slot: Slot) {
    && Lookup(obj, CONTAINERS).Some? && Lookup(obj, CONTAINERS).value.Arr?
    && Named(Lookup(obj, CONTAINERS).value.items, name, slot.index)
    && Lookup(Lookup(obj, CONTAINERS).value.items[slot.index], TIMEOUT) == Some(Num(slot.timeout))
  }

  lemma SlotUnique(obj: Json, name: string, a: Slot, b: Slot)
    requires HasSlot(obj, name, a) && HasSlot(obj, name, b)
    ensures a == b
  {
    hide IsDnsLabel, Lookup;
    var items := Lookup(obj, CONTAINERS).value.items;
    assert NameOf(items[a.index]) == NameOf(items[b.index]);
  }

  lemma {:induction false} LookupConcat(j: Json, p: Place, q: Place)
    ensures Lookup(j, p + q) == if Lookup(j, p).Some? then Lookup(Lookup(j, p).value, q) else None
    decreases |p|
  {
    if p == [] {
      assert p + q == q;
    } else {
      assert (p + q)[0] == p[0] && (p + q)[1..] == p[1..] + q;
      if Child(j, p[0]).Some? {
        LookupConcat(Child(j, p[0]).value, p[1..], q);
      }
    }
  }

  lemma SlotTimeout(obj: Json, name: string, slot: Slot)
    requires HasSlot(obj, name, slot)
    ensures Lookup(obj, TimeoutPlace(slot.index)) == Some(Num(slot.timeout))
  {
    hide IsDnsLabel;
    var at := [Index(slot.index)];
    LookupConcat(obj, CONTAINERS, at + TIMEOUT);
    LookupConcat(Lookup(obj, CONTAINERS).value, at, TIMEOUT);
    assert CONTAINERS + (at + TIMEOUT) == TimeoutPlace(slot.index);
    assert at[1..] == [];
    assert slot.index < |Lookup(obj, CONTAINERS).value.items|;
  }

  // ---- Comparing the whole object --------------------------------------------------------------

  const RESOURCE_VERSION := ["metadata", "resourceVersion"]
  const GENERATION := ["metadata", "generation"]
  const MANAGED_FIELDS := ["metadata", "managedFields"]
  const REVISION := ["metadata", "annotations", "deployment.kubernetes.io/revision"]
  const STATUS := ["status"]

  /** What the API server and its controllers change on their own. */
  function Erase(j: Json): Json {
    Drop(Drop(Drop(Drop(Drop(j, RESOURCE_VERSION), GENERATION), MANAGED_FIELDS), REVISION), STATUS)
  }

  /** The fields the API server and its controllers write. */
  predicate ServerWritten(path: seq<string>) {
    || path == ["metadata", "resourceVersion"] || path == ["metadata", "generation"]
    || path == ["metadata", "managedFields"] || path == ["status"]
    || path == ["metadata", "annotations", "deployment.kubernetes.io/revision"]
  }

  /** A place outside everything erased. */
  ghost predicate OutsideErased(p: Place) {
    forall path :: ServerWritten(path) ==> Apart(Fields(path), p)
  }

  lemma AreServerWritten()
    ensures ServerWritten(RESOURCE_VERSION) && ServerWritten(GENERATION) && ServerWritten(MANAGED_FIELDS)
    ensures ServerWritten(REVISION) && ServerWritten(STATUS)
  {
  }

  lemma EraseFrame(j: Json, p: Place)
    requires OutsideErased(p)
    ensures Lookup(Erase(j), p) == Lookup(j, p)
  {
    hide Drop, Lookup, Apart, Fields, ServerWritten;
    AreServerWritten();
    var a := Drop(j, RESOURCE_VERSION);
    var b := Drop(a, GENERATION);
    var c := Drop(b, MANAGED_FIELDS);
    var d := Drop(c, REVISION);
    DropFrame(j, RESOURCE_VERSION, p);
    DropFrame(a, GENERATION, p);
    DropFrame(b, MANAGED_FIELDS, p);
    DropFrame(c, REVISION, p);
    DropFrame(d, STATUS, p);
  }

  lemma {:induction false} DropsCommute(j: Json, p: seq<string>, q: seq<string>)
    requires !(p <= q) && !(q <= p)
    ensures Drop(Drop(j, p), q) == Drop(Drop(j, q), p)
    decreases |p|
  {
    if j.Obj? && p[0] in j.fields && q[0] in j.fields {
      if p[0] == q[0] {
        var name := p[0];
        assert p == [name] + p[1..] && q == [name] + q[1..];
        var child := j.fields[name];
        DropsCommute(child, p[1..], q[1..]);
        var one, other := Drop(child, p[1..]), Drop(child, q[1..]);
        assert j.fields[name := one][name := Drop(one, q[1..])] == j.fields[name := other][name := Drop(other, p[1..])];
      } else {
        assert Drop(Drop(j, p), q).fields == Drop(Drop(j, q), p).fields;
      }
    }
  }

  /** Two objects that differ only in one field the server writes are the same once erased. */
  lemma ServerWrittenIgnored(b: Json, a: Json, path: seq<string>)
    requires ServerWritten(path) && Drop(b, path) == Drop(a, path)
    ensures Erase(b) == Erase(a)
  {
    hide Drop;
    DropFirst(b, path);
    DropFirst(a, path);
  }

  /** Erasing may start with any of the fields. */
  lemma DropFirst(j: Json, path: seq<string>)
    requires ServerWritten(path)
    ensures Erase(j) == Erasing(Drop(j, path), path)
  {
    hide Drop, ServerWritten;
    AreServerWritten();
    var a := Drop(j, RESOURCE_VERSION);
    var b := Drop(a, GENERATION);
    var c := Drop(b, MANAGED_FIELDS);
    FieldsCommute(j, path, RESOURCE_VERSION);
    FieldsCommute(a, path, GENERATION);
    FieldsCommute(b, path, MANAGED_FIELDS);
    FieldsCommute(c, path, REVISION);
  }

  /** The other four fields, after `path`. */
  function Erasing(j: Json, path: seq<string>): Json {
    var a := if path == RESOURCE_VERSION then j else Drop(j, RESOURCE_VERSION);
    var b := if path == GENERATION then a else Drop(a, GENERATION);
    var c := if path == MANAGED_FIELDS then b else Drop(b, MANAGED_FIELDS);
    var d := if path == REVISION then c else Drop(c, REVISION);
    if path == STATUS then d else Drop(d, STATUS)
  }

  lemma ServerWrittenApart(p: seq<string>, q: seq<string>)
    requires ServerWritten(p) && ServerWritten(q) && p != q
    ensures !(p <= q)
    ensures p in {RESOURCE_VERSION, GENERATION, MANAGED_FIELDS, REVISION, STATUS}
  {
    assert |"metadata"| == 8 && |"status"| == 6 && |"resourceVersion"| == 15 && |"generation"| == 10
      && |"managedFields"| == 13 && |"annotations"| == 11;
    assert p[0] != q[0] ==> !(p <= q);
    assert |p| > 1 && |q| > 1 && p[1] != q[1] ==> !(p <= q);
  }

  /** Two different fields commute. */
  lemma FieldsCommute(j: Json, p: seq<string>, q: seq<string>)
    requires ServerWritten(p) && ServerWritten(q)
    ensures Drop(Drop(j, p), q) == Drop(Drop(j, q), p)
    ensures p in {RESOURCE_VERSION, GENERATION, MANAGED_FIELDS, REVISION, STATUS}
  {
    hide ServerWritten, Drop;
    if p != q {
      ServerWrittenApart(p, q);
      ServerWrittenApart(q, p);
      DropsCommute(j, p, q);
    } else if p != RESOURCE_VERSION {
      AreServerWritten();
      ServerWrittenApart(p, RESOURCE_VERSION);
    }
  }

  predicate HasMetadata(j: Json) {
    Lookup(j, [Field("metadata")]).Some? && Lookup(j, [Field("metadata")]).value.Obj?
  }

  /** `_readiness_only_change` on two objects whose readiness containers are `before` and `after`. */
  ghost predicate OnlyReadinessChanged(b: Json, a: Json, before: Slot, after: Slot)
    requires Lookup(Erase(a), TimeoutPlace(after.index)).Some?
  {
    && before.index == after.index && HasMetadata(b) && HasMetadata(a)
    && PyEqual(Erase(b), SetAt(Erase(a), TimeoutPlace(after.index), Num(1)))
  }

  lemma TimeoutOutsideErased(index: nat)
    ensures OutsideErased(TimeoutPlace(index))
  {
    assert TimeoutPlace(index)[0] == Field("spec");
    assert Fields(RESOURCE_VERSION)[0] == Fields(GENERATION)[0] == Field("metadata");
    assert Fields(MANAGED_FIELDS)[0] == Fields(REVISION)[0] == Field("metadata");
    assert Fields(STATUS)[0] == Field("status");
    assert "spec" != "metadata" && "spec" != "status" by {
      assert "spec"[0] == 's' && "metadata"[0] == 'm' && |"spec"| != |"status"|;
    }
  }

  /**
   * A readiness change that passed the comparison is a pure frame change: every place of the Deployment
   * outside the erased fields and the container's timeout holds what it held before, as Python compares
   * values, and the timeout before was 1.
   */
  lemma VerifiedIsFrameChange(b: Json, a: Json, name: string, before: Slot, after: Slot, p: Place)
    requires HasSlot(b, name, before) && HasSlot(a, name, after)
    requires Lookup(Erase(a), TimeoutPlace(after.index)).Some? && OnlyReadinessChanged(b, a, before, after)
    ensures OutsideErased(p) && Apart(TimeoutPlace(before.index), p) ==> Alike(Lookup(b, p), Lookup(a, p))
    ensures before.timeout == 1 && before.index == after.index
  {
    hide Erase, HasSlot, Canon, SetAt, Lookup, OutsideErased, Apart, TimeoutPlace;
    var place := TimeoutPlace(before.index);
    var edited := SetAt(Erase(a), place, Num(1));
    TimeoutOutsideErased(before.index);
    SlotTimeout(b, name, before);
    EraseFrame(b, place);
    SetThere(Erase(a), place, Num(1));
    CanonLookup(Erase(b), place);
    CanonLookup(edited, place);
    CanonNum(before.timeout);
    CanonNum(1);
    if OutsideErased(p) && Apart(place, p) {
      EraseFrame(b, p);
      EraseFrame(a, p);
      SetFrame(Erase(a), place, Num(1), p);
      CanonLookup(Erase(b), p);
      CanonLookup(edited, p);
    }
  }

  lemma CanonNum(n: int)
    ensures Canon(Num(n)) == Dec(n as real)
  {
  }

  /** The erased copy still has the timeout, so the overwrite in the comparison never fails. */
  lemma ErasedKeepsTimeout(a: Json, name: string, after: Slot)
    requires HasSlot(a, name, after)
    ensures Lookup(Erase(a), TimeoutPlace(after.index)) == Some(Num(after.timeout))
  {
    hide Erase, HasSlot, Lookup, OutsideErased;
    TimeoutOutsideErased(after.index);
    SlotTimeout(a, name, after);
    EraseFrame(a, TimeoutPlace(after.index));
  }

  lemma {:induction false} DropSetCommute(j: Json, path: seq<string>, q: Place, v: Json)
    requires path != [] && Apart(Fields(path), q) && Lookup(j, q).Some?
    ensures Lookup(Drop(j, path), q) == Lookup(j, q)
    ensures Drop(SetAt(j, q, v), path) == SetAt(Drop(j, path), q, v)
    decreases |path|
  {
    DropFrame(j, path, q);
    assert Fields(path)[0] == Field(path[0]) && Fields(path)[1..] == Fields(path[1..]);
    assert q != [] by {
      assert q == [] ==> q <= Fields(path);
    }
    assert |path| == 1 && q[0] == Field(path[0]) ==> Fields(path) <= q;
    if q[0] != Field(path[0]) {
      DropSetElsewhere(j, path, q, v);
    } else {
      assert Fields(path) == [q[0]] + Fields(path[1..]) && q == [q[0]] + q[1..];
      DropSetCommute(j.fields[path[0]], path[1..], q[1..], v);
      DropSetInside(j, path, q, v);
    }
  }

  lemma DropSetElsewhere(j: Json, path: seq<string>, q: Place, v: Json)
    requires path != [] && q != [] && q[0] != Field(path[0]) && Lookup(j, q).Some? && Lookup(Drop(j, path), q).Some?
    ensures Drop(SetAt(j, q, v), path) == SetAt(Drop(j, path), q, v)
  {
    if j.Obj? && path[0] in j.fields {
      var name, child := q[0].name, SetAt(j.fields[q[0].name], q[1..], v);
      if |path| == 1 {
        assert j.fields[name := child] - {path[0]} == (j.fields - {path[0]})[name := child];
      } else {
        var dropped := Drop(j.fields[path[0]], path[1..]);
        assert j.fields[name := child][path[0] := dropped] == j.fields[path[0] := dropped][name := child];
      }
    }
  }

  lemma DropSetInside(j: Json, path: seq<string>, q: Place, v: Json)
    requires |path| > 1 && q != [] && q[0] == Field(path[0]) && Lookup(j, q).Some? && Lookup(Drop(j, path), q).Some?
    requires Lookup(Drop(j.fields[path[0]], path[1..]), q[1..]).Some?
    requires Drop(SetAt(j.fields[path[0]], q[1..], v), path[1..])
      == SetAt(Drop(j.fields[path[0]], path[1..]), q[1..], v)
    ensures Drop(SetAt(j, q, v), path) == SetAt(Drop(j, path), q, v)
  {
    var name, inner := path[0], SetAt(j.fields[path[0]], q[1..], v);
    var dropped := Drop(j.fields[name], path[1..]);
    assert j.fields[name := inner][name := Drop(inner, path[1..])]
      == j.fields[name := dropped][name := SetAt(dropped, q[1..], v)];
  }

  lemma EraseSetCommute(j: Json, q: Place, v: Json)
    requires OutsideErased(q) && Lookup(j, q).Some?
    ensures Lookup(Erase(j), q) == Lookup(j, q) && Erase(SetAt(j, q, v)) == SetAt(Erase(j), q, v)
  {
    hide Drop, Lookup, Apart, Fields, SetAt, ServerWritten;
    AreServerWritten();
    var a := Drop(j, RESOURCE_VERSION);
    var b := Drop(a, GENERATION);
    var c := Drop(b, MANAGED_FIELDS);
    var d := Drop(c, REVISION);
    DropSetCommute(j, RESOURCE_VERSION, q, v);
    DropSetCommute(a, GENERATION, q, v);
    DropSetCommute(b, MANAGED_FIELDS, q, v);
    DropSetCommute(c, REVISION, q, v);
    DropSetCommute(d, STATUS, q, v);
  }

  /** Conversely the comparison passes whenever the object read back is the patched one up to the erased fields. */
  lemma PatchedVerifies(b: Json, a: Json, name: string, index: nat)
    requires HasSlot(b, name, Slot(index, 1)) && HasSlot(a, name, Slot(index, 3)) && HasMetadata(b) && HasMetadata(a)
    requires Lookup(b, TimeoutPlace(index)).Some? && Erase(a) == Erase(SetAt(b, TimeoutPlace(index), Num(3)))
    ensures Lookup(Erase(a), TimeoutPlace(index)).Some?
    ensures OnlyReadinessChanged(b, a, Slot(index, 1), Slot(index, 3))
  {
    hide Erase, HasSlot, Lookup, OutsideErased, SetAt, TimeoutPlace;
    var place := TimeoutPlace(index);
    TimeoutOutsideErased(index);
    SlotTimeout(b, name, Slot(index, 1));
    EraseSetCommute(b, place, Num(3));
    SetThere(Erase(b), place, Num(3));
    SetBack(Erase(b), place, Num(3));
  }

  /** The conflation is real: a field that turns from `1` to `true` or `1.0` elsewhere in the object goes unnoticed. */
  lemma OneAndTrueConflated(fields: map<string, Json>, key: string)
    ensures PyEqual(Obj(fields[key := Num(1)]), Obj(fields[key := Bool(true)]))
    ensures PyEqual(Obj(fields[key := Num(1)]), Obj(fields[key := Dec(1.0)]))
    ensures Obj(fields[key := Num(1)]) != Obj(fields[key := Bool(true)])
    ensures Obj(fields[key := Num(1)]) != Obj(fields[key := Dec(1.0)])
  {
    var one, flag, dec := fields[key := Num(1)], fields[key := Bool(true)], fields[key := Dec(1.0)];
    assert Canon(Obj(one)).fields == Canon(Obj(flag)).fields;
    assert Canon(Obj(one)).fields == Canon(Obj(dec)).fields;
    assert one[key] != flag[key] && one[key] != dec[key];
  }

  datatype Kind = Nothing | Truth | Decimal | Other

  /** What kind of value stands at a place, as far as the comparison may overlook it. */
  function KindAt(j: Json, p: Place): Kind {
    var v := Lookup(j, p);
    if v.None? then Nothing else if v.value.Bool? then Truth else if v.value.Dec? then Decimal else Other
  }

  /** Every place holds the same kind of value. */
  ghost predicate SameKinds(a: Json, b: Json) {
    forall p :: KindAt(a, p) == KindAt(b, p)
  }

  lemma KindsOfChild(a: Json, b: Json, k: Key)
    requires SameKinds(a, b) && Child(a, k).Some? && Child(b, k).Some?
    ensures SameKinds(Child(a, k).value, Child(b, k).value)
  {
    forall p ensures KindAt(Child(a, k).value, p) == KindAt(Child(b, k).value, p) {
      assert ([k] + p)[1..] == p;
      assert KindAt(a, [k] + p) == KindAt(Child(a, k).value, p);
      assert KindAt(b, [k] + p) == KindAt(Child(b, k).value, p);
    }
  }

  /** Values that Python finds equal are the same exactly when the same places hold truth values and decimals. */
  lemma {:induction false} PyEqualIsSameIff(a: Json, b: Json)
    requires PyEqual(a, b)
    ensures a == b <==> SameKinds(a, b)
    decreases a
  {
    if SameKinds(a, b) {
      match a {
        case Arr(items) =>
          assert |b.items| == |items|;
          forall i | 0 <= i < |items| ensures items[i] == b.items[i] {
            assert Canon(items[i]) == Canon(a).items[i] == Canon(b).items[i];
            KindsOfChild(a, b, Index(i));
            PyEqualIsSameIff(items[i], b.items[i]);
          }
        case Obj(fields) =>
          assert Canon(a).fields.Keys == fields.Keys && Canon(b).fields.Keys == b.fields.Keys;
          forall k | k in fields ensures fields[k] == b.fields[k] {
            assert Canon(fields[k]) == Canon(a).fields[k] == Canon(b).fields[k];
            KindsOfChild(a, b, Field(k));
            PyEqualIsSameIff(fields[k], b.fields[k]);
          }
        case _ =>
          assert KindAt(a, []) == KindAt(b, []);
      }
    }
  }

  // ---- The patch -------------------------------------------------------------------------------

  /** JSON Patch operations used here: `test` (section 4.6 of RFC 6902) and `replace` (section 4.3). */
  datatype PatchOp = Test(at: Place, value: Json) | Replace(at: Place, value: Json)

  /** Section 4.6 of RFC 6902 compares numbers by value, unlike Python keeping truth values apart from them. */
  function ByValue(j: Json): Json {
    match j
    case Num(n) => Dec(n as real)
    case Arr(items) => Arr(seq(|items|, i requires 0 <= i < |items| => ByValue(items[i])))
    case Obj(fields) => Obj(map k | k in fields :: ByValue(fields[k]))
    case _ => j
  }

  predicate Matches(found: Option<Json>, v: Json) {
    found.Some? && ByValue(found.value) == ByValue(v)
  }

  /** The operations in order; one that fails fails the whole patch. */
  function Apply(doc: Json, ops: seq<PatchOp>): Option<Json>
    decreases |ops|
  {
    if ops == [] then Some(doc)
    else
      match ops[0]
      case Test(p, v) => if Matches(Lookup(doc, p), v) then Apply(doc, ops[1..]) else None
      case Replace(p, v) => if Lookup(doc, p).None? then None else Apply(SetAt(doc, p, v), ops[1..])
  }

  const UID := [Field("metadata"), Field("uid")]
  const VERSION := [Field("metadata"), Field("resourceVersion")]

  function NamePlace(index: nat): Place {
    CONTAINERS + [Index(index), Field("name")]
  }

  /** `patch_deployment_readiness_timeout`. */
  function ReadinessPatch(uid: string, version: string, index: nat, container: string): seq<PatchOp> {
    [Test(UID, Str(uid)), Test(VERSION, Str(version)), Test(NamePlace(index), Str(container)),
     Test(TimeoutPlace(index), Num(1)), Replace(TimeoutPlace(index), Num(3))]
  }

  predicate StillAsRead(doc: Json, uid: string, version: string, index: nat, container: string) {
    && Lookup(doc, UID) == Some(Str(uid)) && Lookup(doc, VERSION) == Some(Str(version))
    && Lookup(doc, NamePlace(index)) == Some(Str(container))
    && Lookup(doc, TimeoutPlace(index)) in {Some(Num(1)), Some(Dec(1.0))}
  }

  /** The patch applies exactly to the version that was read, and then changes the timeout and nothing else. */
  lemma PatchAppliesIffAsRead(doc: Json, uid: string, version: string, index: nat, container: string)
    ensures
      Apply(doc, ReadinessPatch(uid, version, index, container)).Some?
      <==> StillAsRead(doc, uid, version, index, container)
    ensures StillAsRead(doc, uid, version, index, container) ==>
      Apply(doc, ReadinessPatch(uid, version, index, container)) == Some(SetAt(doc, TimeoutPlace(index), Num(3)))
  {
    hide Lookup, SetAt, TimeoutPlace, NamePlace, Matches;
    var ops := ReadinessPatch(uid, version, index, container);
    assert ops[1..][1..] == ops[2..] && ops[2..][1..] == ops[3..] && ops[3..][1..] == ops[4..] && ops[4..][1..] == [];
    ApplyTest(doc, ops);
    ApplyTest(doc, ops[1..]);
    ApplyTest(doc, ops[2..]);
    ApplyTest(doc, ops[3..]);
    MatchesText(Lookup(doc, UID), uid);
    MatchesText(Lookup(doc, VERSION), version);
    MatchesText(Lookup(doc, NamePlace(index)), container);
    MatchesOne(Lookup(doc, TimeoutPlace(index)));
    if Lookup(doc, TimeoutPlace(index)).Some? {
      var done := SetAt(doc, TimeoutPlace(index), Num(3));
      assert Apply(done, []) == Some(done);
      assert Apply(doc, ops[4..]) == Apply(done, ops[4..][1..]);
    }
  }

  lemma MatchesText(found: Option<Json>, s: string)
    ensures Matches(found, Str(s)) <==> found == Some(Str(s))
  {
  }

  lemma MatchesOne(found: Option<Json>)
    ensures Matches(found, Num(1)) <==> found in {Some(Num(1)), Some(Dec(1.0))}
  {
  }

  lemma ApplyTest(doc: Json, ops: seq<PatchOp>)
    requires ops != [] && ops[0].Test?
    ensures Apply(doc, ops) == if Matches(Lookup(doc, ops[0].at), ops[0].value) then Apply(doc, ops[1..]) else None
  {
  }

  /** What the patch leaves alone, place by place, and what it writes. */
  lemma PatchedFrame(doc: Json, uid: string, version: string, index: nat, container: string, p: Place)
    requires Apply(doc, ReadinessPatch(uid, version, index, container)).Some?
    ensures
      var next := Apply(doc, ReadinessPatch(uid, version, index, container)).value;
      && Lookup(next, TimeoutPlace(index)) == Some(Num(3))
      && Lookup(doc, TimeoutPlace(index)) in {Some(Num(1)), Some(Dec(1.0))}
      && (Apart(TimeoutPlace(index), p) ==> Lookup(next, p) == Lookup(doc, p))
  {
    hide Lookup, SetAt, TimeoutPlace, NamePlace, Apply, Apart;
    PatchAppliesIffAsRead(doc, uid, version, index, container);
    SetThere(doc, TimeoutPlace(index), Num(3));
    if Apart(TimeoutPlace(index), p) {
      SetFrame(doc, TimeoutPlace(index), Num(3), p);
    }
  }

  // ---- The verdict on the read-back ------------------------------------------------------------

  function TextAt(j: Json, p: Place): Option<string> {
    match Lookup(j, p) case Some(Str(s)) => Some(s) case _ => None
  }

  function NumAt(j: Json, p: Place): Option<int> {
    match Lookup(j, p) case Some(Num(n)) => Some(n) case _ => None
  }

  const KIND := [Field("kind")]
  const NAME := [Field("metadata"), Field("name")]
  const NAMESPACE := [Field("metadata"), Field("namespace")]
  const GENERATION_AT := [Field("metadata"), Field("generation")]

  /** `_resource_version_newer`. */
  predicate VersionNewer(before: Option<string>, after: Option<string>) {
    && before.Some? && after.Some? && before.value != "" && after.value != ""
    && if AllDigits(before.value) && AllDigits(after.value) then Value(after.value) > Value(before.value)
       else after.value != before.value
  }

  /** `verify_live_result` for a readiness patch of `name` in `namespace`. */
  ghost predicate VerifiedReadiness(b: Json, a: Json, name: string, namespace: string, container: string,
      before: Slot, after: Slot)
    requires HasSlot(b, container, before) && HasSlot(a, container, after)
  {
    ErasedKeepsTimeout(a, container, after);
    && Lookup(a, KIND) in {None, Some(Null), Some(Str("Deployment"))}
    && TextAt(a, NAME) == Some(name) && TextAt(a, NAMESPACE) == Some(namespace)
    && TextAt(a, UID).Some? && TextAt(a, UID).value != ""
    && (TextAt(b, UID) in {None, Some("")} || TextAt(b, UID) == TextAt(a, UID))
    && before.timeout == 1 && after.timeout == 3 && OnlyReadinessChanged(b, a, before, after)
    && NumAt(b, GENERATION_AT).Some? && NumAt(a, GENERATION_AT).Some?
    && NumAt(a, GENERATION_AT).value > NumAt(b, GENERATION_AT).value
    && VersionNewer(TextAt(b, VERSION), TextAt(a, VERSION))
  }

  /** A Deployment, if it says what it is, of a later generation and a later version. */
  ghost predicate Advanced(b: Json, a: Json) {
    && Lookup(a, KIND) in {None, Some(Null), Some(Str("Deployment"))}
    && NumAt(b, GENERATION_AT).Some? && NumAt(a, GENERATION_AT).Some?
    && NumAt(b, GENERATION_AT).value < NumAt(a, GENERATION_AT).value
    && var earlier, later := TextAt(b, VERSION), TextAt(a, VERSION);
    && earlier.Some? && later.Some? && earlier.value != "" && later.value != "" && earlier.value != later.value
    && (AllDigits(earlier.value) && AllDigits(later.value) ==> Value(earlier.value) < Value(later.value))
  }

  lemma AdvancedIff(b: Json, a: Json)
    ensures Advanced(b, a) <==>
      && Lookup(a, KIND) in {None, Some(Null), Some(Str("Deployment"))}
      && NumAt(b, GENERATION_AT).Some? && NumAt(a, GENERATION_AT).Some?
      && NumAt(a, GENERATION_AT).value > NumAt(b, GENERATION_AT).value
      && VersionNewer(TextAt(b, VERSION), TextAt(a, VERSION))
  {
    hide Lookup, Value;
  }

  /** Conversely the patched object, advanced, of the same identity and changed nowhere else, is verified. */
  lemma PatchedIsVerified(b: Json, a: Json, name: string, namespace: string, container: string, index: nat)
    requires HasSlot(b, container, Slot(index, 1)) && HasSlot(a, container, Slot(index, 3))
    requires HasMetadata(b) && HasMetadata(a) && Lookup(b, TimeoutPlace(index)).Some?
    requires Erase(a) == Erase(SetAt(b, TimeoutPlace(index), Num(3)))
    requires TextAt(a, NAME) == Some(name) && TextAt(a, NAMESPACE) == Some(namespace)
    requires TextAt(a, UID).Some? && TextAt(a, UID) == TextAt(b, UID) && TextAt(a, UID) != Some("") && Advanced(b, a)
    ensures VerifiedReadiness(b, a, name, namespace, container, Slot(index, 1), Slot(index, 3))
  {
    hide Erase, HasSlot, Lookup, TimeoutPlace, SetAt, OnlyReadinessChanged, Advanced, VersionNewer;
    ErasedKeepsTimeout(a, container, Slot(index, 3));
    PatchedVerifies(b, a, container, index);
    AdvancedIff(b, a);
  }

  /** A verified readiness patch: the same named object, its timeout from 1 to 3, every other place as it was. */
  lemma VerifiedMeans(b: Json, a: Json, name: string, namespace: string, container: string, before: Slot, after: Slot,
      p: Place)
    requires HasSlot(b, container, before) && HasSlot(a, container, after)
    requires VerifiedReadiness(b, a, name, namespace, container, before, after)
    ensures Lookup(b, TimeoutPlace(before.index)) == Some(Num(1))
      && Lookup(a, TimeoutPlace(before.index)) == Some(Num(3))
    ensures OutsideErased(p) && Apart(TimeoutPlace(before.index), p) ==> Alike(Lookup(b, p), Lookup(a, p))
    ensures TextAt(a, NAME) == Some(name) && TextAt(a, NAMESPACE) == Some(namespace)
    ensures TextAt(b, UID).Some? && TextAt(b, UID) == TextAt(a, UID) && TextAt(a, UID) != Some("")
    ensures Advanced(b, a)
  {
    hide Erase, HasSlot, Lookup, OutsideErased, Apart, TimeoutPlace, OnlyReadinessChanged, Advanced, VersionNewer;
    AdvancedIff(b, a);
    ErasedKeepsTimeout(a, container, after);
    SlotTimeout(b, container, before);
    SlotTimeout(a, container, after);
    VerifiedIsFrameChange(b, a, container, before, after, p);
    VerifiedIsFrameChange(b, a, container, before, after, UID);
    UidOutsideErased(before.index);
    UidAlike(b, a);
  }

  lemma UidOutsideErased(index: nat)
    ensures OutsideErased(UID) && Apart(TimeoutPlace(index), UID)
  {
    assert UID[1] == Field("uid") && Fields(RESOURCE_VERSION)[1] == Field("resourceVersion");
    assert Fields(GENERATION)[1] == Field("generation") && Fields(MANAGED_FIELDS)[1] == Field("managedFields");
    assert Fields(REVISION)[1] == Field("annotations") && Fields(STATUS)[0] == Field("status");
    assert |"uid"| == 3 && |"resourceVersion"| == 15 && |"generation"| == 10 && |"managedFields"| == 13
      && |"annotations"| == 11;
    assert UID[0] == Field("metadata") && TimeoutPlace(index)[0] == Field("spec");
    assert |"metadata"| == 8 && |"spec"| == 4 && |"status"| == 6;
  }

  lemma UidAlike(b: Json, a: Json)
    requires Alike(Lookup(b, UID), Lookup(a, UID)) && TextAt(a, UID).Some?
    ensures TextAt(b, UID) == TextAt(a, UID)
  {
    hide Lookup;
  }

  // ---- The comparison as the code makes it -----------------------------------------------------

  /** `_readiness_container`: `None` where it raises. */
  method ReadinessContainer(obj: Json, name: string) returns (slot: Option<Slot>)
    ensures slot.Some? ==> HasSlot(obj, name, slot.value)
    ensures slot.None? ==> forall s :: !HasSlot(obj, name, s)
  {
    hide Lookup, IsDnsLabel;
    slot := None;
    var found := Lookup(obj, CONTAINERS);
    if found.None? || !found.value.Arr? {
      return;
    }
    var items := found.value.items;
    var seen: seq<string>, index: nat := [], |items|;
    for i := 0 to |items|
      invariant |seen| == i && index <= |items|
      invariant forall k :: 0 <= k < i ==> NameOf(items[k]) == Some(seen[k]) && IsDnsLabel(seen[k])
      invariant forall k, m :: 0 <= k < m < i ==> seen[k] != seen[m]
      invariant if index < |items| then index < i && seen[index] == name else forall k :: 0 <= k < i ==> seen[k] != name
    {
      var here := NameOf(items[i]);
      if here.None? || !IsDnsLabel(here.value) {
        return;
      }
      if here.value in seen {
        ghost var k :| 0 <= k < i && seen[k] == here.value;
        assert NameOf(items[k]) == NameOf(items[i]);
        return;
      }
      if here.value == name {
        index := i;
      }
      seen := seen + [here.value];
    }
    if index < |items| {
      var timeout := Lookup(items[index], TIMEOUT);
      if timeout.Some? && timeout.value.Num? {
        slot := Some(Slot(index, timeout.value.n));
      } else {
        forall s: Slot | Named(items, name, s.index) ensures s.index == index {
          assert NameOf(items[s.index]) == NameOf(items[index]);
        }
      }
    }
  }

  method ReadinessOnlyChange(b: Json, a: Json, name: string) returns (r: Option<bool>)
    ensures r.Some? ==> exists before, after ::
      HasSlot(b, name, before) && HasSlot(a, name, after)
      && Lookup(Erase(a), TimeoutPlace(after.index)).Some? && r.value == OnlyReadinessChanged(b, a, before, after)
    ensures r.None? ==> forall before, after :: !(HasSlot(b, name, before) && HasSlot(a, name, after))
  {
    hide HasSlot, Drop, Lookup, SetAt;
    var before := ReadinessContainer(b, name);
    var after := ReadinessContainer(a, name);
    if before.None? || after.None? {
      return None;
    }
    ErasedKeepsTimeout(a, name, after.value);
    if before.value.index != after.value.index || !HasMetadata(b) || !HasMetadata(a) {
      return Some(false);
    }
    var left, right := b, a;
    left := Drop(left, RESOURCE_VERSION);
    left := Drop(left, GENERATION);
    left := Drop(left, MANAGED_FIELDS);
    left := Drop(left, REVISION);
    left := Drop(left, STATUS);
    right := Drop(right, RESOURCE_VERSION);
    right := Drop(right, GENERATION);
    right := Drop(right, MANAGED_FIELDS);
    right := Drop(right, REVISION);
    right := Drop(right, STATUS);
    right := SetAt(right, TimeoutPlace(after.value.index), Num(1));
    return Some(PyEqual(left, right));
  }
}
