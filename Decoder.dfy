/** `Utilities.dictionary_to_object`: a parsed JSON response becomes a tree
    of registered objects. Each member of a JSON object becomes one keyword
    argument of the enclosing class's constructor:
    - a nested object under key `k` is an instance of the class found from
      `k` (capitalised, else `_class_name_map`), passed as argument
      `attribute_name_map[k]`;
    - a list under `k` is passed as argument `attribute_name_map[k]`; when
      the declared type of that field is `List[X]` and `X` is a class, each
      entry is decoded as an `X`, otherwise each entry is taken literally;
    - a scalar under `k` is passed unchanged as `attribute_name_map[k]`, with
      a trailing `_` when that name is a builtin or keyword; a scalar under a
      key the class does not know is dropped.
    The source builds Python source text and evaluates it; the model builds
    the objects directly, and the errors the generated text would raise are
    `DecodeError`s. */
module Decoder {
  import opened Wire
  import opened Text
  import opened Registry
  import opened Objects

  datatype DecodeError =
    | UnknownAttribute(cls: string, key: string)      // KeyError on a name or type map
    | UnresolvedClass(key: string)                    // no class for a nested object's key
    | UnknownClass(name: string)                      // no class for the top-level key
    | NotAnObject                                     // an entry of a list of objects is not a JSON object
    | ObjectInLiteral                                 // a JSON object among literal list entries
    | TopLevelScalar                                  // the response body is a bare scalar
    | ConstructorFailed(cls: string, error: ConstructError)

  /** A scalar attribute, written with `{!r}` and read back by `eval`. */
  function ScalarValue(j: Json): (v: Value)
    requires IsScalar(j)
    ensures j.JNull? <==> v.VNone?
    ensures j.JBool? ==> v == VBool(j.b)
    ensures j.JInt? ==> v == VInt(j.i)
    ensures j.JStr? ==> v == VStr(j.s)
  {
    match j
    case JNull => VNone
    case JBool(b) => VBool(b)
    case JInt(i) => VInt(i)
    case JStr(s) => VStr(s)
  }

  /** A literal list entry: a scalar keeps its value and a nested list is a
      list of literals; a JSON object cannot appear among literals. The
      source's coercion through `format()` is the subject of a finding; this
      is the evidently intended behaviour. */
  function Literal(j: Json): (r: Result<Value, DecodeError>)
    ensures IsScalar(j) ==> r == Ok(ScalarValue(j))
    ensures j.JObject? ==> r == Err(ObjectInLiteral)
    ensures j.JArray? && r.Ok? ==> r.value.VList? && |r.value.items| == |j.items|
    decreases j, 1
  {
    match j
    case JArray(items) =>
      var vs :- Literals(items);
      Ok(VList(vs))
    case JObject(_) => Err(ObjectInLiteral)
    case _ => Ok(ScalarValue(j))
  }

  function Literals(items: seq<Json>): (r: Result<seq<Value>, DecodeError>)
    ensures r.Ok? ==> |r.value| == |items|
    decreases items, 0
  {
    if items == [] then Ok([])
    else
      var first :- Literal(items[0]);
      var rest :- Literals(items[1..]);
      Ok([first] + rest)
  }

  /** The class of the entries of a list declared as `t`: `t[5:-1]` when
      `'List' in t` and that name is a class, otherwise none (literals). */
  function ListElementClass(reg: Registry, t: string): (r: Option<string>)
    ensures r.Some? <==> IsListType(t) && ElementName(t) in reg
    ensures r.Some? ==> r.value == ElementName(t)
  {
    if IsListType(t) && ElementName(t) in reg then Some(ElementName(t)) else None
  }

  /** The constructor call for class `cls` from the members of a JSON
      object: on success an instance of `cls` with exactly its fields. */
  function DecodeObject(reg: Registry, cls: string, ms: seq<Member>): (r: Result<Value, DecodeError>)
    requires cls in reg
    ensures r.Ok? ==> r.value.VObject? && r.value.cls == cls
    ensures r.Ok? ==> forall f :: f in r.value.fields <==> f in Fields(reg[cls])
    decreases ms, 1
  {
    var args :- DecodeMembers(reg, cls, ms, []);
    match Construct(cls, reg[cls], args)
    case Ok(v) => Ok(v)
    case Err(e) => Err(ConstructorFailed(cls, e))
  }

  /** The keyword arguments for the members `ms`, appended to those already
      generated (`acc`), member by member in document order. */
  function DecodeMembers(reg: Registry, cls: string, ms: seq<Member>, acc: seq<Arg>)
    : (r: Result<seq<Arg>, DecodeError>)
    requires cls in reg
    ensures r.Ok? ==> |acc| <= |r.value| <= |acc| + |ms| && r.value[..|acc|] == acc
    decreases ms, 0
  {
    if ms == [] then Ok(acc)
    else
      var a :- DecodeMember(reg, cls, ms[0]);
      DecodeMembers(reg, cls, ms[1..], acc + OptionalArg(a))
  }

  function OptionalArg(a: Option<Arg>): seq<Arg> {
    if a.Some? then [a.value] else []
  }

  /** The keyword argument for one member, or none when the member is a
      scalar under a key the class does not know. */
  function DecodeMember(reg: Registry, cls: string, m: Member): (r: Result<Option<Arg>, DecodeError>)
    requires cls in reg
    ensures IsScalar(m.value) && m.key !in reg[cls].nameMap ==> r == Ok(None)
    ensures IsScalar(m.value) && m.key in reg[cls].nameMap ==>
      r == Ok(Some(Arg(ArgumentName(reg[cls].nameMap[m.key]), ScalarValue(m.value))))
    ensures !IsScalar(m.value) && m.key !in reg[cls].nameMap ==> r.Err?
    ensures m.value.JObject? && r.Ok? ==>
      r.value.Some? && r.value.value.name == reg[cls].nameMap[m.key]
      && ResolveNested(reg, m.key).Some?
      && r.value.value.value.VObject? && r.value.value.value.cls == ResolveNested(reg, m.key).value
    ensures m.value.JArray? && r.Ok? ==>
      r.value.Some? && r.value.value.name == reg[cls].nameMap[m.key]
      && r.value.value.value.VList? && |r.value.value.value.items| == |m.value.items|
    decreases m, 0
  {
    var d := reg[cls];
    match m.value
    case JObject(sub) =>
      if ResolveNested(reg, m.key).None? then Err(UnresolvedClass(m.key))
      else if m.key !in d.nameMap then Err(UnknownAttribute(cls, m.key))
      else
        var obj :- DecodeObject(reg, ResolveNested(reg, m.key).value, sub);
        Ok(Some(Arg(d.nameMap[m.key], obj)))
    case JArray(items) =>
      if m.key !in d.nameMap then Err(UnknownAttribute(cls, m.key))
      else
        var f := d.nameMap[m.key];
        if items == [] then Ok(Some(Arg(f, VList([]))))
        else if f !in d.typeMap then Err(UnknownAttribute(cls, f))
        else
          var vs :- ListEntries(reg, ListElementClass(reg, d.typeMap[f]), items);
          Ok(Some(Arg(f, VList(vs))))
    case _ =>
      if m.key in d.nameMap then Ok(Some(Arg(ArgumentName(d.nameMap[m.key]), ScalarValue(m.value))))
      else Ok(None)
  }

  /** The entries of a list attribute: instances of the element class when
      the declared type names one, literals otherwise. */
  function ListEntries(reg: Registry, elem: Option<string>, items: seq<Json>): (r: Result<seq<Value>, DecodeError>)
    requires elem.Some? ==> elem.value in reg
    ensures elem.Some? ==> r == DecodeItems(reg, elem.value, items)
    ensures elem.None? ==> r == Literals(items)
    decreases items, 1
  {
    if elem.Some? then DecodeItems(reg, elem.value, items) else Literals(items)
  }

  /** The entries of a list of instances of class `c`, in order; an entry
      that is not a JSON object cannot be decoded as one. */
  function DecodeItems(reg: Registry, c: string, items: seq<Json>): (r: Result<seq<Value>, DecodeError>)
    requires c in reg
    ensures r.Ok? ==> |r.value| == |items|
    ensures r.Ok? ==> forall i :: 0 <= i < |items| ==> r.value[i].VObject? && r.value[i].cls == c
    decreases items, 0
  {
    if items == [] then Ok([])
    else
      var first :- (if items[0].JObject? then DecodeObject(reg, c, items[0].members) else Err(NotAnObject));
      var rest :- DecodeItems(reg, c, items[1..]);
      Ok([first] + rest)
  }

  /** `dictionary_to_object({name: body}, {name: cls}, ..., is_top_level=True)`:
      an object body is an instance of the class named by the capitalised
      key, a list body a list of instances of the response class, and a bare
      scalar cannot be decoded. */
  function DecodeTop(reg: Registry, cls: string, body: Json): (r: Result<Value, DecodeError>)
    requires cls in reg
    ensures body.JObject? && r.Ok? ==> r.value.VObject? && r.value.cls == Capitalize(cls)
    ensures body.JObject? && Capitalize(cls) !in reg ==> r == Err(UnknownClass(cls))
    ensures body.JArray? && r.Ok? ==>
      r.value.VList? && |r.value.items| == |body.items|
      && forall i :: 0 <= i < |body.items| ==> r.value.items[i].VObject? && r.value.items[i].cls == cls
    ensures IsScalar(body) ==> r == Err(TopLevelScalar)
  {
    match body
    case JObject(ms) =>
      if Capitalize(cls) in reg then DecodeObject(reg, Capitalize(cls), ms) else Err(UnknownClass(cls))
    case JArray(items) =>
      var vs :- DecodeItems(reg, cls, items);
      Ok(VList(vs))
    case _ => Err(TopLevelScalar)
  }

  /** The member loop of `dictionary_to_object` over one JSON object: the
      arguments are generated member by member, and the constructor is
      called on them at the end. */
  method DecodeObjectLoop(reg: Registry, cls: string, ms: seq<Member>) returns (r: Result<Value, DecodeError>)
    requires cls in reg
    ensures r == DecodeObject(reg, cls, ms)
  {
    var args: seq<Arg> := [];
    var i := 0;
    while i < |ms|
      invariant 0 <= i <= |ms|
      invariant DecodeMembers(reg, cls, ms, []) == DecodeMembers(reg, cls, ms[i..], args)
    {
      assert ms[i..][0] == ms[i] && ms[i..][1..] == ms[i + 1..];
      var a := DecodeMember(reg, cls, ms[i]);
      if a.Err? {
        return Err(a.error);
      }
      args := args + OptionalArg(a.value);
      i := i + 1;
    }
    var c := Construct(cls, reg[cls], args);
    if c.Err? {
      return Err(ConstructorFailed(cls, c.error));
    }
    r := Ok(c.value);
  }
}
