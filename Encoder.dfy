/** `Utilities.object_to_dictionary`: an object becomes the JSON object sent
    in a request body. The fields are visited in declaration order; a field
    holding `None` is skipped, and every other field is written under its
    wire key (`attribute_name_map[field]`):
    - a list becomes a list of the same length and order, whose entries are
      encoded recursively when they are objects and copied otherwise;
    - an object of a registered class is encoded recursively;
    - anything else is copied unchanged.
    A value `json.dumps` cannot write (an object of an unregistered class
    copied as is) is an `EncodeError` here. */
module Encoder {
  import opened Wire
  import opened Registry
  import opened Objects

  datatype EncodeError =
    | NotSerializable                              // json.dumps would reject the copied value
    | MissingWireName(cls: string, field: string)  // KeyError on attribute_name_map

  /** The value read from slot `f` of `v`; an unset slot reads as `None`. */
  function FieldValue(v: Value, f: string): Value
    requires v.VObject?
  {
    if f in v.fields then v.fields[f] else VNone
  }

  /** A value copied into the dictionary as is, as `json.dumps` writes it. */
  function Verbatim(x: Value): (r: Result<Json, EncodeError>)
    ensures x.VNone? ==> r == Ok(JNull)
    ensures x.VBool? ==> r == Ok(JBool(x.b))
    ensures x.VInt? ==> r == Ok(JInt(x.i))
    ensures x.VStr? ==> r == Ok(JStr(x.s))
    ensures x.VDict? ==> r == Ok(JObject(x.members))
    ensures x.VObject? ==> r == Err(NotSerializable)
    ensures x.VList? && r.Ok? ==> r.value.JArray? && |r.value.items| == |x.items|
    decreases x, 1
  {
    match x
    case VNone => Ok(JNull)
    case VBool(b) => Ok(JBool(b))
    case VInt(i) => Ok(JInt(i))
    case VStr(s) => Ok(JStr(s))
    case VDict(ms) => Ok(JObject(ms))
    case VObject(_, _) => Err(NotSerializable)
    case VList(items) =>
      var js :- VerbatimItems(items);
      Ok(JArray(js))
  }

  function VerbatimItems(items: seq<Value>): (r: Result<seq<Json>, EncodeError>)
    ensures r.Ok? ==> |r.value| == |items|
    decreases items, 0
  {
    if items == [] then Ok([])
    else
      var first :- Verbatim(items[0]);
      var rest :- VerbatimItems(items[1..]);
      Ok([first] + rest)
  }

  /** `object_to_dictionary(v, type(v))`: the members written for `v`. */
  function EncodeObject(reg: Registry, v: Value): (r: Result<seq<Member>, EncodeError>)
    requires v.VObject? && v.cls in reg
    ensures r.Ok? ==> forall k :: HasKey(r.value, k) ==>
      exists f :: f in Fields(reg[v.cls]) && FieldValue(v, f) != VNone
        && f in reg[v.cls].nameMap && k == reg[v.cls].nameMap[f]
    ensures r.Ok? ==> forall f :: f in Fields(reg[v.cls]) && FieldValue(v, f) != VNone ==>
      f in reg[v.cls].nameMap && HasKey(r.value, reg[v.cls].nameMap[f])
    decreases v, 2
  {
    EncodeFields(reg, v, Fields(reg[v.cls]), [])
  }

  /** A field holding `None` is skipped: its wire key does not appear in
      the dictionary. */
  lemma NoneFieldOmitted(reg: Registry, v: Value, f: string)
    requires v.VObject? && v.cls in reg && WellFormed(reg[v.cls])
    requires f in Fields(reg[v.cls]) && FieldValue(v, f) == VNone
    requires EncodeObject(reg, v).Ok?
    ensures !HasKey(EncodeObject(reg, v).value, reg[v.cls].nameMap[f])
  {
    var d := reg[v.cls];
    forall g | g in Fields(d) && g in d.nameMap && d.nameMap[g] == d.nameMap[f]
      ensures g == f
    {
      assert d.nameMap[d.nameMap[g]] == g;
    }
  }

  /** The loop over the fields `fs` of `v`, writing into the dictionary
      built so far (`acc`) with Python's `d[k] = x`. */
  function EncodeFields(reg: Registry, v: Value, fs: seq<string>, acc: seq<Member>)
    : (r: Result<seq<Member>, EncodeError>)
    requires v.VObject? && v.cls in reg
    ensures r.Ok? ==> forall k :: HasKey(r.value, k) ==>
      HasKey(acc, k) ||
      (exists f :: f in fs && FieldValue(v, f) != VNone && f in reg[v.cls].nameMap && k == reg[v.cls].nameMap[f])
    ensures r.Ok? ==> forall k :: HasKey(acc, k) ==> HasKey(r.value, k)
    ensures r.Ok? ==> forall f :: f in fs && FieldValue(v, f) != VNone ==>
      f in reg[v.cls].nameMap && HasKey(r.value, reg[v.cls].nameMap[f])
    decreases v, 1, |fs|
  {
    if fs == [] then Ok(acc)
    else
      var d := reg[v.cls];
      var x := if fs[0] in v.fields then v.fields[fs[0]] else VNone;
      if x.VNone? then EncodeFields(reg, v, fs[1..], acc)
      else if fs[0] !in d.nameMap then Err(MissingWireName(v.cls, fs[0]))
      else
        var j :- EncodeAttribute(reg, x);
        PutKeys(acc, d.nameMap[fs[0]], j);
        EncodeFields(reg, v, fs[1..], Put(acc, d.nameMap[fs[0]], j))
  }

  /** One turn of the slot loop, on the first of the fields `fs`. */
  lemma EncodeFieldsStep(reg: Registry, v: Value, fs: seq<string>, acc: seq<Member>)
    requires v.VObject? && v.cls in reg && fs != []
    ensures var x := FieldValue(v, fs[0]);
      var d := reg[v.cls];
      EncodeFields(reg, v, fs, acc) ==
        if x.VNone? then EncodeFields(reg, v, fs[1..], acc)
        else if fs[0] !in d.nameMap then Err(MissingWireName(v.cls, fs[0]))
        else if EncodeAttribute(reg, x).Err? then Err(EncodeAttribute(reg, x).error)
        else EncodeFields(reg, v, fs[1..], Put(acc, d.nameMap[fs[0]], EncodeAttribute(reg, x).value))
  {
  }

  /** The JSON written for a field holding `x` (not `None`). */
  function EncodeAttribute(reg: Registry, x: Value): (r: Result<Json, EncodeError>)
    ensures x.VObject? && x.cls in reg ==>
      r == (match EncodeObject(reg, x) case Ok(ms) => Ok(JObject(ms)) case Err(e) => Err(e))
    ensures x.VObject? && x.cls !in reg ==> r == Err(NotSerializable)
    ensures !x.VList? && !x.VObject? ==> r == Verbatim(x)
    ensures x.VList? ==>
      r == (match EncodeEntries(reg, x.items) case Ok(js) => Ok(JArray(js)) case Err(e) => Err(e))
    decreases x, 3
  {
    match x
    case VList(items) =>
      var js :- EncodeEntries(reg, items);
      Ok(JArray(js))
    case VObject(c, _) =>
      if c in reg then
        var ms :- EncodeObject(reg, x);
        Ok(JObject(ms))
      else Err(NotSerializable)
    case _ => Verbatim(x)
  }

  /** The entries of a list attribute: same length and order; objects are
      encoded recursively, anything else is copied. */
  function EncodeEntries(reg: Registry, items: seq<Value>): (r: Result<seq<Json>, EncodeError>)
    ensures r.Ok? ==> |r.value| == |items|
    ensures r.Ok? ==> forall i :: 0 <= i < |items| && !items[i].VObject? ==> Verbatim(items[i]) == Ok(r.value[i])
    ensures r.Ok? ==> forall i :: 0 <= i < |items| && items[i].VObject? ==>
      items[i].cls in reg && r.value[i].JObject? && EncodeObject(reg, items[i]) == Ok(r.value[i].members)
    decreases items, 0
  {
    if items == [] then Ok([])
    else
      var first :- EncodeEntry(reg, items[0]);
      var rest :- EncodeEntries(reg, items[1..]);
      var r := [first] + rest;
      assert forall i :: 0 < i < |items| ==> items[i] == items[1..][i - 1] && r[i] == rest[i - 1];
      Ok(r)
  }

  function EncodeEntry(reg: Registry, x: Value): (r: Result<Json, EncodeError>)
    ensures !x.VObject? ==> r == Verbatim(x)
    ensures x.VObject? && r.Ok? ==> x.cls in reg && r.value.JObject? && EncodeObject(reg, x) == Ok(r.value.members)
    decreases x, 3
  {
    if x.VObject? then
      if x.cls in reg then
        var ms :- EncodeObject(reg, x);
        Ok(JObject(ms))
      else Err(NotSerializable)
    else Verbatim(x)
  }

  /** The slot loop of `object_to_dictionary`, filling the dictionary in
      place field by field. */
  method EncodeObjectLoop(reg: Registry, v: Value) returns (r: Result<seq<Member>, EncodeError>)
    requires v.VObject? && v.cls in reg
    ensures r == EncodeObject(reg, v)
  {
    var d := reg[v.cls];
    var fs := Fields(d);
    var dictionary: seq<Member> := [];
    var i := 0;
    while i < |fs|
      invariant 0 <= i <= |fs|
      invariant EncodeFields(reg, v, fs, []) == EncodeFields(reg, v, fs[i..], dictionary)
    {
      var rest := fs[i..];
      assert rest[0] == fs[i] && rest[1..] == fs[i + 1..];
      EncodeFieldsStep(reg, v, rest, dictionary);
      var x := FieldValue(v, fs[i]);
      if !x.VNone? {
        if fs[i] !in d.nameMap {
          return Err(MissingWireName(v.cls, fs[i]));
        }
        var j := EncodeAttribute(reg, x);
        if j.Err? {
          return Err(j.error);
        }
        dictionary := Put(dictionary, d.nameMap[fs[i]], j.value);
      }
      i := i + 1;
    }
    r := Ok(dictionary);
  }
}
