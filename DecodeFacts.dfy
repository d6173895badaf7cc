/** What decoding guarantees about the objects it builds: where each member
    of a JSON object ends up, that unknown scalar keys are ignored, and that
    lists declared as lists of a class hold instances of that class. */
module DecodeFacts {
  import opened Wire
  import opened Registry
  import opened Objects
  import opened Decoder

  /** Decoding a concatenation of members decodes the first part and then
      continues from its arguments. */
  lemma {:induction false} DecodeMembersSplit(reg: Registry, cls: string, ms1: seq<Member>, ms2: seq<Member>, acc: seq<Arg>)
    requires cls in reg
    ensures DecodeMembers(reg, cls, ms1 + ms2, acc) ==
      match DecodeMembers(reg, cls, ms1, acc)
      case Err(e) => Err(e)
      case Ok(a) => DecodeMembers(reg, cls, ms2, a)
  {
    if ms1 != [] {
      assert (ms1 + ms2)[0] == ms1[0] && (ms1 + ms2)[1..] == ms1[1..] + ms2;
      var a := DecodeMember(reg, cls, ms1[0]);
      if a.Ok? {
        DecodeMembersSplit(reg, cls, ms1[1..], ms2, acc + OptionalArg(a.value));
      }
    } else {
      assert ms1 + ms2 == ms2;
    }
  }

  /** A scalar under a key the class's name map does not hold is logged and
      dropped: the object decodes exactly as if the member were absent. */
  lemma UnknownScalarDropped(reg: Registry, cls: string, ms1: seq<Member>, k: string, j: Json, ms2: seq<Member>)
    requires cls in reg && k !in reg[cls].nameMap && IsScalar(j)
    ensures DecodeObject(reg, cls, ms1 + [Member(k, j)] + ms2) == DecodeObject(reg, cls, ms1 + ms2)
  {
    var m := Member(k, j);
    assert ms1 + [m] + ms2 == ms1 + ([m] + ms2);
    DecodeMembersSplit(reg, cls, ms1, [m] + ms2, []);
    DecodeMembersSplit(reg, cls, ms1, ms2, []);
    var first := DecodeMembers(reg, cls, ms1, []);
    if first.Ok? {
      assert ([m] + ms2)[0] == m && ([m] + ms2)[1..] == ms2;
      assert first.value + OptionalArg(None) == first.value;
    }
  }

  /** Every argument generated for a member of a successfully decoded member
      list is among the arguments of the constructor call. */
  lemma {:induction false} MemberArgumentCollected(reg: Registry, cls: string, ms: seq<Member>, acc: seq<Arg>, i: nat)
    requires cls in reg && i < |ms|
    requires DecodeMembers(reg, cls, ms, acc).Ok?
    ensures DecodeMember(reg, cls, ms[i]).Ok?
    ensures DecodeMember(reg, cls, ms[i]).value.Some? ==>
      DecodeMember(reg, cls, ms[i]).value.value in DecodeMembers(reg, cls, ms, acc).value
  {
    var a := DecodeMember(reg, cls, ms[0]);
    var acc' := acc + OptionalArg(a.value);
    var args := DecodeMembers(reg, cls, ms[1..], acc').value;
    if i == 0 {
      if a.value.Some? {
        assert args[..|acc'|] == acc';
        assert args[|acc|] == a.value.value;
      }
    } else {
      assert ms[1..][i - 1] == ms[i];
      MemberArgumentCollected(reg, cls, ms[1..], acc', i - 1);
    }
  }

  /** In a decoded object, the argument generated for each member is stored
      in the field whose keyword it is. */
  lemma DecodedMemberStored(reg: Registry, cls: string, ms: seq<Member>, i: nat)
    requires cls in reg && i < |ms|
    requires DecodeObject(reg, cls, ms).Ok?
    ensures DecodeMember(reg, cls, ms[i]).Ok?
    ensures DecodeMember(reg, cls, ms[i]).value.Some? ==>
      var a := DecodeMember(reg, cls, ms[i]).value.value;
      exists f :: (f in Fields(reg[cls]) && ArgumentName(f) == a.name
        && DecodeObject(reg, cls, ms).value.fields[f] == a.value)
  {
    var args := DecodeMembers(reg, cls, ms, []).value;
    MemberArgumentCollected(reg, cls, ms, [], i);
    if DecodeMember(reg, cls, ms[i]).value.Some? {
      var a := DecodeMember(reg, cls, ms[i]).value.value;
      var k :| 0 <= k < |args| && args[k] == a;
      ConstructStoresEveryArgument(cls, reg[cls], args, k);
    }
  }

  /** A scalar under the wire key of field `f` is stored unchanged in `f`
      (under the keyword `f`, or `f_` when `f` is a builtin or keyword). */
  lemma DecodedScalarField(reg: Registry, cls: string, ms: seq<Member>, i: nat)
    requires cls in reg && WellFormed(reg[cls]) && i < |ms|
    requires IsScalar(ms[i].value) && ms[i].key in reg[cls].nameMap
    requires reg[cls].nameMap[ms[i].key] in Fields(reg[cls])
    requires DecodeObject(reg, cls, ms).Ok?
    ensures DecodeObject(reg, cls, ms).value.fields[reg[cls].nameMap[ms[i].key]] == ScalarValue(ms[i].value)
  {
    DecodedMemberStored(reg, cls, ms, i);
  }

  /** A list under the wire key of field `f`, declared `List[X]` with `X` a
      class, is stored in `f` as a list of as many instances of `X`, in
      order of the JSON entries. */
  lemma DecodedObjectListField(reg: Registry, cls: string, ms: seq<Member>, i: nat)
    requires cls in reg && WellFormed(reg[cls]) && i < |ms|
    requires ms[i].value.JArray? && ms[i].key in reg[cls].nameMap
    requires reg[cls].nameMap[ms[i].key] in Fields(reg[cls])
    requires reg[cls].nameMap[ms[i].key] !in ReservedNames
    requires ListElementClass(reg, reg[cls].typeMap[reg[cls].nameMap[ms[i].key]]).Some?
    requires DecodeObject(reg, cls, ms).Ok?
    ensures var f := reg[cls].nameMap[ms[i].key];
      var c := ListElementClass(reg, reg[cls].typeMap[f]).value;
      var x := DecodeObject(reg, cls, ms).value.fields[f];
      x.VList? && |x.items| == |ms[i].value.items|
      && forall e :: 0 <= e < |x.items| ==> x.items[e].VObject? && x.items[e].cls == c
  {
    var d := reg[cls];
    var m := ms[i];
    var f := d.nameMap[m.key];
    var c := ListElementClass(reg, d.typeMap[f]).value;
    var v := DecodeObject(reg, cls, ms).value;
    DecodedMemberStored(reg, cls, ms, i);
    var a := DecodeMember(reg, cls, m).value.value;
    var g :| g in Fields(d) && ArgumentName(g) == a.name && v.fields[g] == a.value;
    assert g == f;
    if m.value.items != [] {
      var entries := ListEntries(reg, Some(c), m.value.items);
      assert entries == DecodeItems(reg, c, m.value.items);
      assert a == Arg(f, VList(entries.value));
    }
  }

  /** A list under the wire key of field `f` whose declared type names no
      class is stored in `f` as the literal entries. */
  lemma DecodedLiteralListField(reg: Registry, cls: string, ms: seq<Member>, i: nat)
    requires cls in reg && WellFormed(reg[cls]) && i < |ms|
    requires ms[i].value.JArray? && ms[i].key in reg[cls].nameMap
    requires reg[cls].nameMap[ms[i].key] in Fields(reg[cls])
    requires reg[cls].nameMap[ms[i].key] !in ReservedNames
    requires ListElementClass(reg, reg[cls].typeMap[reg[cls].nameMap[ms[i].key]]).None?
    requires DecodeObject(reg, cls, ms).Ok?
    ensures var f := reg[cls].nameMap[ms[i].key];
      Literals(ms[i].value.items).Ok?
      && DecodeObject(reg, cls, ms).value.fields[f] == VList(Literals(ms[i].value.items).value)
  {
    DecodedMemberStored(reg, cls, ms, i);
  }

  /** A nested object under the wire key of field `f` is stored in `f` as an
      instance of the class its key resolves to. */
  lemma DecodedNestedObjectField(reg: Registry, cls: string, ms: seq<Member>, i: nat)
    requires cls in reg && WellFormed(reg[cls]) && i < |ms|
    requires ms[i].value.JObject? && ms[i].key in reg[cls].nameMap
    requires reg[cls].nameMap[ms[i].key] in Fields(reg[cls])
    requires reg[cls].nameMap[ms[i].key] !in ReservedNames
    requires DecodeObject(reg, cls, ms).Ok?
    ensures ResolveNested(reg, ms[i].key).Some?
    ensures var x := DecodeObject(reg, cls, ms).value.fields[reg[cls].nameMap[ms[i].key]];
      x.VObject? && x.cls == ResolveNested(reg, ms[i].key).value
  {
    DecodedMemberStored(reg, cls, ms, i);
  }
}
