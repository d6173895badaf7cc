/** Three places where the source does not do what it evidently means to.
    Each is modelled here as written, next to an input that shows the
    difference; the rest of the model uses the intended behaviour. */
module Findings {
  import opened Wire
  import opened Registry
  import opened Objects
  import opened Decoder
  import opened Service

  // ---------------------------------------------------------------- literal list entries

  /** A literal list entry as `dictionary_to_object` writes it: a bool as
      `bool('<format(b)>')`, an int as `int('<format(i)>')` and anything else
      as the quoted text `format()` gives. Both `bool('True')` and
      `bool('False')` are `True`, and `null` becomes the string `'None'`. */
  function LiteralAsWritten(j: Json): (r: Result<Value, DecodeError>)
    ensures j.JInt? || j.JStr? ==> r == Literal(j)
    ensures j.JObject? ==> r == Err(ObjectInLiteral)
    decreases j, 1
  {
    match j
    case JBool(_) => Ok(VBool(true))
    case JNull => Ok(VStr("None"))
    case JInt(i) => Ok(VInt(i))
    case JStr(s) => Ok(VStr(s))
    case JArray(items) =>
      var vs :- LiteralsAsWritten(items);
      Ok(VList(vs))
    case JObject(_) => Err(ObjectInLiteral)
  }

  function LiteralsAsWritten(items: seq<Json>): (r: Result<seq<Value>, DecodeError>)
    ensures r.Ok? ==> |r.value| == |items|
    decreases items, 0
  {
    if items == [] then Ok([])
    else
      var first :- LiteralAsWritten(items[0]);
      var rest :- LiteralsAsWritten(items[1..]);
      Ok([first] + rest)
  }

  /** `false` and `null` in a list of literals do not come back as
      themselves, where the intended reading keeps them. */
  lemma FalseAndNullMisread()
    ensures LiteralAsWritten(JBool(false)) == Ok(VBool(true)) && Literal(JBool(false)) == Ok(VBool(false))
    ensures LiteralAsWritten(JNull) == Ok(VStr("None")) && Literal(JNull) == Ok(VNone)
  {
  }

  // ---------------------------------------------------------------- dropped members

  /** What the text generated for one constructor call amounts to. */
  datatype Generated =
    | Call(args: seq<Arg>)              // the call `eval` runs
    | GenerationFailed(e: DecodeError)  // an error while writing the text
    | SyntaxError                       // `eval` cannot parse the text

  /** A member the class does not know that the decoder drops. */
  predicate Dropped(reg: Registry, cls: string, m: Member)
    requires cls in reg
  {
    IsScalar(m.value) && m.key !in reg[cls].nameMap
  }

  /** The argument list of one object as the source writes it. A dropped
      member still writes its indentation and, unless it is the object's
      last member, the `,\n` separator, so the call holds an empty argument
      between two commas. */
  function ArgumentsAsWritten(reg: Registry, cls: string, ms: seq<Member>): (g: Generated)
    requires cls in reg
    ensures g.Call? ==> DecodeMembers(reg, cls, ms, []) == Ok(g.args)
    ensures (exists i :: 0 <= i < |ms| - 1 && Dropped(reg, cls, ms[i])) ==> !g.Call?
  {
    match DecodeMembers(reg, cls, ms, [])
    case Err(e) => GenerationFailed(e)
    case Ok(args) =>
      if exists i :: 0 <= i < |ms| - 1 && Dropped(reg, cls, ms[i]) then SyntaxError else Call(args)
  }

  /** A class with one field, `code`. */
  const Coded := Describe([Entry("code", "code", "int", false, true)], 1)

  /** An unknown key before a known one makes the generated call
      unparseable, where the intended decoder drops it and goes on. */
  lemma UnknownKeyFirst()
    ensures var reg := map["Status" := Coded];
      var ms := [Member("extra", JInt(1)), Member("code", JInt(0))];
      ArgumentsAsWritten(reg, "Status", ms) == SyntaxError
      && DecodeMembers(reg, "Status", ms, []) == DecodeMembers(reg, "Status", ms[1..], [])
      && DecodeMembers(reg, "Status", ms, []).Ok?
  {
    var reg := map["Status" := Coded];
    var ms := [Member("extra", JInt(1)), Member("code", JInt(0))];
    assert reg["Status"].nameMap == map["code" := "code"];
    assert Dropped(reg, "Status", ms[0]);
    assert DecodeMember(reg, "Status", ms[0]) == Ok(None);
    assert DecodeMember(reg, "Status", ms[1]).Ok?;
    assert ms[1..][1..] == [];
  }

  // ---------------------------------------------------------------- set_hold parameters

  /** The temperature and climate keys of `set_hold` as written: each is
      added only when its argument is truthy, so a temperature of `0` and
      an empty climate name are left out, although the checks accept them
      (they test for `None`). */
  function HoldTargetParamsAsWritten(cool: Option<int>, heat: Option<int>, climate: Option<string>)
    : (ps: seq<Member>)
    ensures HasKey(ps, "coolHoldTemp") ==> cool.Some? && cool.value != 0
  {
    var c := if cool.Some? && cool.value != 0 then [Member("coolHoldTemp", JInt(10 * cool.value))] else [];
    var h := if heat.Some? && heat.value != 0 then [Member("heatHoldTemp", JInt(10 * heat.value))] else [];
    var r := if climate.Some? && climate.value != "" then [Member("holdClimateRef", JStr(climate.value))] else [];
    KeysOfAppend(c, h);
    KeysOfAppend(c + h, r);
    c + h + r
  }

  /** A hold at 0°F cooling and 50°F heating passes the checks, yet the
      request carries no cooling temperature and no climate: the thermostat
      is not told both temperatures the checks insisted on. */
  lemma ZeroCoolingDropped()
    ensures HoldTarget(Some(0), Some(50), None)
    ensures var ps := HoldTargetParamsAsWritten(Some(0), Some(50), None);
      !HasKey(ps, "coolHoldTemp") && !HasKey(ps, "holdClimateRef")
    ensures HasKey(HoldTargetParams(Some(0), Some(50), None), "coolHoldTemp")
  {
    var ps := HoldTargetParamsAsWritten(Some(0), Some(50), None);
    assert ps == [Member("heatHoldTemp", JInt(500))];
    assert KeysOf(ps) == ["heatHoldTemp"];
  }
}
