/** `dictionary_to_object` inverts `object_to_dictionary`: an object whose
    class tables are well formed and whose field values the wire format can
    carry decodes, from the dictionary it encodes to, to itself. */
module RoundTrip {
  import opened Wire
  import opened Registry
  import opened Objects
  import opened Decoder
  import opened DecodeFacts
  import opened Encoder

  /** A value a literal list can carry both ways. */
  predicate LiteralValue(x: Value)
    decreases x, 0
  {
    match x
    case VNone => true
    case VBool(_) => true
    case VInt(_) => true
    case VStr(_) => true
    case VList(items) => forall i :: 0 <= i < |items| ==> LiteralValue(items[i])
    case VDict(_) => false
    case VObject(_, _) => false
  }

  /** Objects the wire format carries faithfully: the class tables are well
      formed, the object has exactly the class's fields, and every field
      holds something its declaration lets the decoder rebuild. */
  ghost predicate Encodable(reg: Registry, v: Value)
    decreases v, 1
  {
    v.VObject? && v.cls in reg && WellFormed(reg[v.cls])
    && (forall f :: f in v.fields <==> f in Fields(reg[v.cls]))
    && (forall f :: f in Fields(reg[v.cls]) ==> f in v.fields && EncodableField(reg, reg[v.cls], f, v.fields[f]))
  }

  /** Field `f` of a class described by `d` may hold `x`:
      - `None` only when the constructor gives `f` a default;
      - a nested object only when `f` is not renamed for being a builtin,
        its wire key resolves to the object's class, and the object is
        itself encodable;
      - a list (possibly empty) of instances of the declared element class,
        or of literals when the declared type names no class;
      - never a plain dictionary, which would come back as an object. */
  ghost predicate EncodableField(reg: Registry, d: Descriptor, f: string, x: Value)
    requires WellFormed(d) && f in Fields(d)
    decreases x, 2
  {
    match x
    case VNone => f in d.optional
    case VBool(_) => true
    case VInt(_) => true
    case VStr(_) => true
    case VDict(_) => false
    case VObject(c, _) =>
      f !in ReservedNames && ResolveNested(reg, d.nameMap[f]) == Some(c) && Encodable(reg, x)
    case VList(items) =>
      f !in ReservedNames
      && match ListElementClass(reg, d.typeMap[f])
         case Some(c) => forall i :: 0 <= i < |items| ==>
           items[i].VObject? && items[i].cls == c && Encodable(reg, items[i])
         case None => forall i :: 0 <= i < |items| ==> LiteralValue(items[i])
  }

  /** The keyword arguments that rebuild the non-`None` fields `fs` of `v`,
      in field order. */
  function ArgsOf(v: Value, fs: seq<string>): (args: seq<Arg>)
    requires v.VObject?
    ensures |args| <= |fs|
  {
    if fs == [] then []
    else
      var x := FieldValue(v, fs[0]);
      (if x != VNone then [Arg(ArgumentName(fs[0]), x)] else []) + ArgsOf(v, fs[1..])
  }

  /** Each argument of `ArgsOf(v, fs)` comes from a set field `fs[p]`, at a
      position no earlier than its own. */
  lemma {:induction false} ArgsOfSource(v: Value, fs: seq<string>, i: nat) returns (p: nat)
    requires v.VObject? && i < |ArgsOf(v, fs)|
    ensures i <= p < |fs| && FieldValue(v, fs[p]) != VNone
    ensures ArgsOf(v, fs)[i] == Arg(ArgumentName(fs[p]), FieldValue(v, fs[p]))
  {
    var x := FieldValue(v, fs[0]);
    var rest := ArgsOf(v, fs[1..]);
    if x != VNone {
      if i == 0 {
        p := 0;
      } else {
        assert ArgsOf(v, fs)[i] == rest[i - 1];
        var q := ArgsOfSource(v, fs[1..], i - 1);
        p := q + 1;
      }
    } else {
      assert ArgsOf(v, fs) == rest;
      var q := ArgsOfSource(v, fs[1..], i);
      p := q + 1;
    }
  }

  /** A keyword no field of `fs` takes is absent from `ArgsOf`. */
  lemma {:induction false} ArgsOfMissing(v: Value, fs: seq<string>, name: string)
    requires v.VObject? && forall g :: g in fs ==> ArgumentName(g) != name
    ensures ArgValue(ArgsOf(v, fs), name) == None
  {
    if fs != [] {
      var rest := ArgsOf(v, fs[1..]);
      assert forall g :: g in fs[1..] ==> g in fs;
      ArgsOfMissing(v, fs[1..], name);
      var args := ArgsOf(v, fs);
      if FieldValue(v, fs[0]) != VNone {
        assert args[0].name != name && args[1..] == rest;
      } else {
        assert args == rest;
      }
    }
  }

  /** Each field's keyword finds its own value among `ArgsOf`. */
  lemma {:induction false} ArgsOfLookup(v: Value, fs: seq<string>, f: string)
    requires v.VObject? && f in fs && InjectiveNames(fs)
    ensures ArgValue(ArgsOf(v, fs), ArgumentName(f)) ==
      (if FieldValue(v, f) != VNone then Some(FieldValue(v, f)) else None)
  {
    var x := FieldValue(v, fs[0]);
    var rest := ArgsOf(v, fs[1..]);
    var args := ArgsOf(v, fs);
    var name := ArgumentName(f);
    assert forall g :: g in fs[1..] ==> g in fs;
    if x != VNone && ArgumentName(fs[0]) == name {
      assert fs[0] == f;
      assert args[0] == Arg(name, x);
    } else {
      if x != VNone {
        assert args[0].name != name && args[1..] == rest;
      } else {
        assert args == rest;
      }
      assert ArgValue(args, name) == ArgValue(rest, name);
      if f in fs[1..] {
        ArgsOfLookup(v, fs[1..], f);
      } else {
        assert f == fs[0];
        assert forall g :: g in fs[1..] ==> g != f;
        ArgsOfMissing(v, fs[1..], name);
      }
    }
  }

  predicate InjectiveNames(fs: seq<string>) {
    forall f, g :: f in fs && g in fs && f != g ==> ArgumentName(f) != ArgumentName(g)
  }

  /** No keyword repeats among `ArgsOf`. */
  lemma {:induction false} ArgsOfDistinct(v: Value, fs: seq<string>)
    requires v.VObject? && Distinct(fs) && InjectiveNames(fs)
    ensures DistinctNames(ArgsOf(v, fs))
  {
    if fs != [] {
      var rest := ArgsOf(v, fs[1..]);
      assert forall g :: g in fs[1..] ==> g in fs;
      assert Distinct(fs[1..]) by {
        assert forall a :: 0 <= a < |fs| - 1 ==> fs[1..][a] == fs[a + 1];
      }
      ArgsOfDistinct(v, fs[1..]);
      var x := FieldValue(v, fs[0]);
      if x != VNone {
        ArgsOfLaterNames(v, fs);
        DistinctNamesCons(Arg(ArgumentName(fs[0]), x), rest);
      }
    }
  }

  /** The keyword of the first field is taken by no later field's argument. */
  lemma ArgsOfLaterNames(v: Value, fs: seq<string>)
    requires v.VObject? && fs != [] && Distinct(fs) && InjectiveNames(fs)
    ensures forall j :: 0 <= j < |ArgsOf(v, fs[1..])| ==> ArgsOf(v, fs[1..])[j].name != ArgumentName(fs[0])
  {
    var rest := ArgsOf(v, fs[1..]);
    forall j | 0 <= j < |rest| ensures rest[j].name != ArgumentName(fs[0]) {
      var p := ArgsOfSource(v, fs[1..], j);
      assert fs[1..][p] == fs[p + 1] != fs[0];
      assert fs[p + 1] in fs;
    }
  }

  /** The constructor rebuilds an encodable object from `ArgsOf` its fields. */
  lemma ConstructFromArgsOf(reg: Registry, v: Value)
    requires Encodable(reg, v)
    ensures Construct(v.cls, reg[v.cls], ArgsOf(v, Fields(reg[v.cls]))) == Ok(v)
  {
    var d := reg[v.cls];
    forall f | f in Fields(d) && f !in d.optional ensures v.fields[f] != VNone {
      assert EncodableField(reg, d, f, v.fields[f]);
    }
    ConstructArgsOf(v.cls, d, v);
  }

  /** `ArgsOf` the fields of an object that holds a value in every field
      without a default is an accepted call that rebuilds those fields. */
  lemma ConstructArgsOf(cls: string, d: Descriptor, v: Value)
    requires v.VObject? && Distinct(Fields(d)) && KeywordsDistinct(d)
    requires forall f :: f in v.fields <==> f in Fields(d)
    requires forall f :: f in Fields(d) && f !in d.optional ==> v.fields[f] != VNone
    ensures Construct(cls, d, ArgsOf(v, Fields(d))) == Ok(VObject(cls, v.fields))
  {
    var fs := Fields(d);
    ArgsOfAccepted(cls, d, v);
    assert InjectiveNames(fs);
    ArgsOfStored(v, fs);
    ConstructStoring(cls, d, ArgsOf(v, fs), v.fields);
  }

  /** Each field's keyword stores the field's own value from `ArgsOf`. */
  lemma ArgsOfStored(v: Value, fs: seq<string>)
    requires v.VObject? && InjectiveNames(fs)
    ensures forall f :: f in fs ==> StoredValue(ArgsOf(v, fs), f) == FieldValue(v, f)
  {
    forall f | f in fs ensures StoredValue(ArgsOf(v, fs), f) == FieldValue(v, f) {
      ArgsOfLookup(v, fs, f);
    }
  }

  /** The constructor accepts `ArgsOf` the fields of such an object. */
  lemma ArgsOfAccepted(cls: string, d: Descriptor, v: Value)
    requires v.VObject? && Distinct(Fields(d)) && KeywordsDistinct(d)
    requires forall f :: f in v.fields <==> f in Fields(d)
    requires forall f :: f in Fields(d) && f !in d.optional ==> v.fields[f] != VNone
    ensures Construct(cls, d, ArgsOf(v, Fields(d))).Ok?
  {
    var fs := Fields(d);
    var args := ArgsOf(v, fs);
    assert InjectiveNames(fs);
    ArgsOfDistinct(v, fs);
    ArgsOfParameters(d, v);
    forall f | f in fs && f !in d.optional ensures ArgValue(args, ArgumentName(f)).Some? {
      ArgsOfLookup(v, fs, f);
    }
  }

  /** Every keyword of `ArgsOf` the fields is a constructor parameter. */
  lemma ArgsOfParameters(d: Descriptor, v: Value)
    requires v.VObject?
    ensures forall i :: 0 <= i < |ArgsOf(v, Fields(d))| ==> IsParameter(d, ArgsOf(v, Fields(d))[i].name)
  {
    var fs := Fields(d);
    var args := ArgsOf(v, fs);
    forall i | 0 <= i < |args| ensures IsParameter(d, args[i].name) {
      var p := ArgsOfSource(v, fs, i);
      assert fs[p] in fs;
    }
  }

  /** Decoding one more member appends its argument. */
  lemma DecodeAppended(reg: Registry, cls: string, acc: seq<Member>, m: Member, args: seq<Arg>, a: Arg)
    requires cls in reg && DecodeMembers(reg, cls, acc, []) == Ok(args)
    requires DecodeMember(reg, cls, m) == Ok(Some(a))
    ensures DecodeMembers(reg, cls, acc + [m], []) == Ok(args + [a])
  {
    DecodeMembersSplit(reg, cls, acc, [m], []);
    assert [m][1..] == [];
  }

  /** A scalar field is written as the scalar and read back under its
      keyword. */
  lemma RoundTripScalar(reg: Registry, d: Descriptor, cls: string, f: string, x: Value)
    requires cls in reg && reg[cls] == d && WellFormed(d) && f in Fields(d)
    requires x.VBool? || x.VInt? || x.VStr?
    ensures EncodeAttribute(reg, x).Ok?
    ensures DecodeMember(reg, cls, Member(d.nameMap[f], EncodeAttribute(reg, x).value))
      == Ok(Some(Arg(ArgumentName(f), x)))
  {
    var k := d.nameMap[f];
    assert k in d.nameMap && d.nameMap[k] == f;
  }

  /** A nested object is written as its own dictionary and read back as an
      instance of the class its wire key resolves to. */
  lemma RoundTripNested(reg: Registry, d: Descriptor, cls: string, f: string, x: Value)
    requires cls in reg && reg[cls] == d && WellFormed(d) && f in Fields(d)
    requires x.VObject? && f !in ReservedNames && ResolveNested(reg, d.nameMap[f]) == Some(x.cls)
    requires Encodable(reg, x)
    ensures EncodeAttribute(reg, x).Ok?
    ensures DecodeMember(reg, cls, Member(d.nameMap[f], EncodeAttribute(reg, x).value))
      == Ok(Some(Arg(ArgumentName(f), x)))
    decreases x, 5
  {
    var k := d.nameMap[f];
    assert k in d.nameMap && d.nameMap[k] == f;
    RoundTripObject(reg, x);
    var ms := EncodeObject(reg, x).value;
    assert EncodeAttribute(reg, x) == Ok(JObject(ms));
    DecodeObjectMember(reg, cls, k, ms, x);
  }

  /** A JSON object under a known key whose class resolves decodes to the
      instance built from its members. */
  lemma DecodeObjectMember(reg: Registry, cls: string, k: string, ms: seq<Member>, x: Value)
    requires cls in reg && k in reg[cls].nameMap && ResolveNested(reg, k).Some?
    requires DecodeObject(reg, ResolveNested(reg, k).value, ms) == Ok(x)
    ensures DecodeMember(reg, cls, Member(k, JObject(ms))) == Ok(Some(Arg(reg[cls].nameMap[k], x)))
  {
  }

  /** A list declared as a list of class `c` is written entry by entry and
      read back as the same instances. */
  lemma RoundTripObjectList(reg: Registry, d: Descriptor, cls: string, f: string, c: string, items: seq<Value>)
    requires cls in reg && reg[cls] == d && WellFormed(d) && f in Fields(d) && f !in ReservedNames
    requires ListElementClass(reg, d.typeMap[f]) == Some(c)
    requires forall i :: 0 <= i < |items| ==> items[i].VObject? && items[i].cls == c && Encodable(reg, items[i])
    ensures EncodeAttribute(reg, VList(items)).Ok?
    ensures DecodeMember(reg, cls, Member(d.nameMap[f], EncodeAttribute(reg, VList(items)).value))
      == Ok(Some(Arg(f, VList(items))))
    decreases items, 3
  {
    var k := d.nameMap[f];
    assert k in d.nameMap && d.nameMap[k] == f;
    RoundTripItems(reg, c, items);
    var js := EncodeEntries(reg, items).value;
    assert EncodeAttribute(reg, VList(items)) == Ok(JArray(js));
    if items != [] {
      assert ListEntries(reg, Some(c), js) == Ok(items);
      DecodeListMember(reg, cls, k, js, items);
    }
  }

  /** A non-empty JSON list under a known key decodes to the list of its
      entries. */
  lemma DecodeListMember(reg: Registry, cls: string, k: string, js: seq<Json>, vs: seq<Value>)
    requires cls in reg && k in reg[cls].nameMap && js != [] && reg[cls].nameMap[k] in reg[cls].typeMap
    requires ListEntries(reg, ListElementClass(reg, reg[cls].typeMap[reg[cls].nameMap[k]]), js) == Ok(vs)
    ensures DecodeMember(reg, cls, Member(k, JArray(js))) == Ok(Some(Arg(reg[cls].nameMap[k], VList(vs))))
  {
  }

  /** A list whose declared type names no class is written and read back
      literally. */
  lemma RoundTripLiteralList(reg: Registry, d: Descriptor, cls: string, f: string, items: seq<Value>)
    requires cls in reg && reg[cls] == d && WellFormed(d) && f in Fields(d) && f !in ReservedNames
    requires ListElementClass(reg, d.typeMap[f]) == None
    requires forall i :: 0 <= i < |items| ==> LiteralValue(items[i])
    ensures EncodeAttribute(reg, VList(items)).Ok?
    ensures DecodeMember(reg, cls, Member(d.nameMap[f], EncodeAttribute(reg, VList(items)).value))
      == Ok(Some(Arg(f, VList(items))))
  {
    var k := d.nameMap[f];
    assert k in d.nameMap && d.nameMap[k] == f;
    LiteralsRoundTrip(reg, items);
    var js := EncodeEntries(reg, items).value;
    assert EncodeAttribute(reg, VList(items)) == Ok(JArray(js));
    if items != [] {
      assert ListEntries(reg, None, js) == Ok(items);
      DecodeListMember(reg, cls, k, js, items);
    }
  }

  /** A list is written entry by entry and read back as the same list. */
  lemma RoundTripList(reg: Registry, d: Descriptor, cls: string, f: string, x: Value)
    requires cls in reg && reg[cls] == d && WellFormed(d) && f in Fields(d)
    requires x.VList? && EncodableField(reg, d, f, x)
    ensures EncodeAttribute(reg, x).Ok?
    ensures DecodeMember(reg, cls, Member(d.nameMap[f], EncodeAttribute(reg, x).value))
      == Ok(Some(Arg(ArgumentName(f), x)))
    decreases x, 5
  {
    assert x == VList(x.items);
    match ListElementClass(reg, d.typeMap[f])
    case Some(c) =>
      RoundTripObjectList(reg, d, cls, f, c, x.items);
    case None =>
      RoundTripLiteralList(reg, d, cls, f, x.items);
  }

  /** One field: the member the encoder writes for it decodes to the keyword
      argument that sets it. */
  lemma RoundTripAttribute(reg: Registry, d: Descriptor, cls: string, f: string, x: Value)
    requires cls in reg && reg[cls] == d && WellFormed(d) && f in Fields(d)
    requires x != VNone && EncodableField(reg, d, f, x)
    ensures EncodeAttribute(reg, x).Ok?
    ensures DecodeMember(reg, cls, Member(d.nameMap[f], EncodeAttribute(reg, x).value))
      == Ok(Some(Arg(ArgumentName(f), x)))
    decreases x, 6
  {
    if x.VObject? {
      RoundTripNested(reg, d, cls, f, x);
    } else if x.VList? {
      RoundTripList(reg, d, cls, f, x);
    } else {
      RoundTripScalar(reg, d, cls, f, x);
    }
  }

  /** A list of encodable instances of `c` comes back entry for entry. */
  lemma {:induction false} RoundTripItems(reg: Registry, c: string, items: seq<Value>)
    requires c in reg
    requires forall i :: 0 <= i < |items| ==> items[i].VObject? && items[i].cls == c && Encodable(reg, items[i])
    ensures EncodeEntries(reg, items).Ok?
    ensures DecodeItems(reg, c, EncodeEntries(reg, items).value) == Ok(items)
    decreases items, 2
  {
    if items != [] {
      RoundTripObject(reg, items[0]);
      RoundTripItems(reg, c, items[1..]);
      assert EncodeEntry(reg, items[0]).Ok?;
      var js := EncodeEntries(reg, items).value;
      assert js[1..] == EncodeEntries(reg, items[1..]).value;
      assert [items[0]] + items[1..] == items;
    }
  }

  /** Literal entries come back unchanged: `Literal` inverts `Verbatim`. */
  lemma {:induction false} LiteralRoundTrip(x: Value)
    requires LiteralValue(x)
    ensures Verbatim(x).Ok? && Literal(Verbatim(x).value) == Ok(x)
    decreases x, 1
  {
    match x
    case VList(items) =>
      VerbatimLiteralsRoundTrip(items);
    case _ =>
  }

  lemma {:induction false} VerbatimLiteralsRoundTrip(items: seq<Value>)
    requires forall i :: 0 <= i < |items| ==> LiteralValue(items[i])
    ensures VerbatimItems(items).Ok? && Literals(VerbatimItems(items).value) == Ok(items)
    decreases items, 0
  {
    if items != [] {
      LiteralRoundTrip(items[0]);
      VerbatimLiteralsRoundTrip(items[1..]);
      var js := VerbatimItems(items).value;
      assert js[0] == Verbatim(items[0]).value && js[1..] == VerbatimItems(items[1..]).value;
      assert [items[0]] + items[1..] == items;
    }
  }

  /** A list of literals is written verbatim and read back unchanged. */
  lemma {:induction false} LiteralsRoundTrip(reg: Registry, items: seq<Value>)
    requires forall i :: 0 <= i < |items| ==> LiteralValue(items[i])
    ensures EncodeEntries(reg, items).Ok? && Literals(EncodeEntries(reg, items).value) == Ok(items)
    decreases items
  {
    if items != [] {
      LiteralRoundTrip(items[0]);
      LiteralsRoundTrip(reg, items[1..]);
      var first := Verbatim(items[0]).value;
      var rest := EncodeEntries(reg, items[1..]).value;
      assert EncodeEntry(reg, items[0]) == Ok(first);
      assert EncodeEntries(reg, items) == Ok([first] + rest);
      assert ([first] + rest)[0] == first && ([first] + rest)[1..] == rest;
      assert [items[0]] + items[1..] == items;
    }
  }

  /** The keys already written are the wire keys of the first `n` fields. */
  ghost predicate WrittenBefore(d: Descriptor, n: nat, acc: seq<Member>)
    requires n <= |Fields(d)|
  {
    forall k :: HasKey(acc, k) ==> k in d.nameMap && d.nameMap[k] in Fields(d)[..n]
  }

  /** A field holding `None` writes nothing and contributes no argument. */
  lemma RoundTripSkip(reg: Registry, v: Value, n: nat, acc: seq<Member>)
    requires Encodable(reg, v) && n < |Fields(reg[v.cls])|
    requires WrittenBefore(reg[v.cls], n, acc)
    requires v.fields[Fields(reg[v.cls])[n]] == VNone
    ensures EncodeFields(reg, v, Fields(reg[v.cls])[n..], acc) == EncodeFields(reg, v, Fields(reg[v.cls])[n + 1..], acc)
    ensures WrittenBefore(reg[v.cls], n + 1, acc)
    ensures ArgsOf(v, Fields(reg[v.cls])[n + 1..]) == ArgsOf(v, Fields(reg[v.cls])[n..])
  {
    var all := Fields(reg[v.cls]);
    var fs := all[n..];
    assert fs[0] == all[n] && fs[1..] == all[n + 1..];
    assert FieldValue(v, all[n]) == VNone;
    EncodeFieldsStep(reg, v, fs, acc);
    WrittenStays(reg[v.cls], n, acc);
  }

  /** Keys written before field `n` were written before field `n + 1`. */
  lemma WrittenStays(d: Descriptor, n: nat, acc: seq<Member>)
    requires n < |Fields(d)| && WrittenBefore(d, n, acc)
    ensures WrittenBefore(d, n + 1, acc)
  {
    var all := Fields(d);
    assert forall g :: g in all[..n] ==> g in all[..n + 1] by {
      assert all[..n] == all[..n + 1][..n];
    }
  }

  /** The wire key of the field at position `n` has not been written yet. */
  lemma WireKeyFresh(d: Descriptor, n: nat, acc: seq<Member>)
    requires WellFormed(d) && n < |Fields(d)| && WrittenBefore(d, n, acc)
    ensures !HasKey(acc, d.nameMap[Fields(d)[n]])
  {
    var all := Fields(d);
    var f := all[n];
    assert d.nameMap[d.nameMap[f]] == f;
    forall p | 0 <= p < n ensures all[p] != f {}
    assert f !in all[..n];
  }

  /** The written keys after `d[k] = j`, where `k` is the wire key of the
      field at position `n`. */
  lemma WrittenAfterPut(d: Descriptor, n: nat, acc: seq<Member>, j: Json)
    requires WellFormed(d) && n < |Fields(d)| && WrittenBefore(d, n, acc)
    ensures Put(acc, d.nameMap[Fields(d)[n]], j) == acc + [Member(d.nameMap[Fields(d)[n]], j)]
    ensures WrittenBefore(d, n + 1, Put(acc, d.nameMap[Fields(d)[n]], j))
  {
    var f := Fields(d)[n];
    WireKeyFresh(d, n, acc);
    assert d.nameMap[d.nameMap[f]] == f;
    WrittenAppend(d, n, acc, d.nameMap[f], j);
  }

  /** Appending the member of the field at position `n` extends the
      written keys by that field. */
  lemma WrittenAppend(d: Descriptor, n: nat, acc: seq<Member>, k: string, j: Json)
    requires n < |Fields(d)| && WrittenBefore(d, n, acc)
    requires k in d.nameMap && d.nameMap[k] == Fields(d)[n] && !HasKey(acc, k)
    ensures Put(acc, k, j) == acc + [Member(k, j)]
    ensures WrittenBefore(d, n + 1, Put(acc, k, j))
  {
    var all := Fields(d);
    PutFresh(acc, k, j);
    KeysOfAppend(acc, [Member(k, j)]);
    assert KeysOf([Member(k, j)]) == [k];
    assert all[..n + 1] == all[..n] + [all[n]];
    forall k' | HasKey(acc + [Member(k, j)], k') ensures k' in d.nameMap && d.nameMap[k'] in all[..n + 1] {
      if k' != k {
        assert HasKey(acc, k');
      }
    }
  }

  /** A field holding a value appends the member under its wire key, which
      decodes to the field's keyword argument. */
  lemma RoundTripWrite(reg: Registry, v: Value, n: nat, acc: seq<Member>, args: seq<Arg>)
    returns (acc': seq<Member>, args': seq<Arg>)
    requires Encodable(reg, v) && n < |Fields(reg[v.cls])|
    requires WrittenBefore(reg[v.cls], n, acc)
    requires DecodeMembers(reg, v.cls, acc, []) == Ok(args)
    requires v.fields[Fields(reg[v.cls])[n]] != VNone
    ensures EncodeFields(reg, v, Fields(reg[v.cls])[n..], acc) == EncodeFields(reg, v, Fields(reg[v.cls])[n + 1..], acc')
    ensures WrittenBefore(reg[v.cls], n + 1, acc')
    ensures DecodeMembers(reg, v.cls, acc', []) == Ok(args')
    ensures args' + ArgsOf(v, Fields(reg[v.cls])[n + 1..]) == args + ArgsOf(v, Fields(reg[v.cls])[n..])
    decreases v, 3, |Fields(reg[v.cls])| - n, 0
  {
    var d := reg[v.cls];
    var all := Fields(d);
    var fs := all[n..];
    assert fs[0] == all[n] && fs[1..] == all[n + 1..];
    var f := all[n];
    EncodableFieldOf(reg, v, f);
    var x := v.fields[f];
    var k := d.nameMap[f];
    RoundTripAttribute(reg, d, v.cls, f, x);
    var j := EncodeAttribute(reg, x).value;
    WrittenAfterPut(d, n, acc, j);
    acc' := Put(acc, k, j);
    var a := Arg(ArgumentName(f), x);
    args' := args + [a];
    DecodeAppended(reg, v.cls, acc, Member(k, j), args, a);
    EncodeFieldsWrite(reg, v, fs, acc, j);
    ArgsOfWrite(v, fs, args);
  }

  /** What `Encodable` says about one field. */
  lemma EncodableFieldOf(reg: Registry, v: Value, f: string)
    requires Encodable(reg, v) && f in Fields(reg[v.cls])
    ensures WellFormed(reg[v.cls]) && f in v.fields && FieldValue(v, f) == v.fields[f]
    ensures EncodableField(reg, reg[v.cls], f, v.fields[f])
  {
  }

  lemma EncodeFieldsWrite(reg: Registry, v: Value, fs: seq<string>, acc: seq<Member>, j: Json)
    requires v.VObject? && v.cls in reg && fs != [] && FieldValue(v, fs[0]) != VNone
    requires fs[0] in reg[v.cls].nameMap && EncodeAttribute(reg, FieldValue(v, fs[0])) == Ok(j)
    ensures EncodeFields(reg, v, fs, acc) == EncodeFields(reg, v, fs[1..], Put(acc, reg[v.cls].nameMap[fs[0]], j))
  {
  }

  /** Writing the set field `fs[0]` extends the arguments by its own. */
  lemma ArgsOfWrite(v: Value, fs: seq<string>, args: seq<Arg>)
    requires v.VObject? && fs != [] && FieldValue(v, fs[0]) != VNone
    ensures (args + [Arg(ArgumentName(fs[0]), FieldValue(v, fs[0]))]) + ArgsOf(v, fs[1..]) == args + ArgsOf(v, fs)
  {
    var a := Arg(ArgumentName(fs[0]), FieldValue(v, fs[0]));
    var rest := ArgsOf(v, fs[1..]);
    assert ArgsOf(v, fs) == [a] + rest;
    assert (args + [a]) + rest == args + ([a] + rest);
  }

  /** Decoding the members written for the fields `Fields(d)[n..]` after
      those already written (`acc`, decoding to `args`) yields `args`
      followed by the arguments for those fields. */
  lemma {:induction false} RoundTripFields(reg: Registry, v: Value, n: nat, acc: seq<Member>, args: seq<Arg>)
    requires Encodable(reg, v) && n <= |Fields(reg[v.cls])|
    requires WrittenBefore(reg[v.cls], n, acc)
    requires DecodeMembers(reg, v.cls, acc, []) == Ok(args)
    ensures EncodeFields(reg, v, Fields(reg[v.cls])[n..], acc).Ok?
    ensures DecodeMembers(reg, v.cls, EncodeFields(reg, v, Fields(reg[v.cls])[n..], acc).value, [])
      == Ok(args + ArgsOf(v, Fields(reg[v.cls])[n..]))
    decreases v, 3, |Fields(reg[v.cls])| - n, 1
  {
    var all := Fields(reg[v.cls]);
    if n == |all| {
      assert all[n..] == [];
      assert args + ArgsOf(v, all[n..]) == args;
    } else {
      if v.fields[all[n]] == VNone {
        RoundTripSkip(reg, v, n, acc);
        RoundTripFields(reg, v, n + 1, acc, args);
      } else {
        var acc', args' := RoundTripWrite(reg, v, n, acc, args);
        RoundTripFields(reg, v, n + 1, acc', args');
      }
    }
  }

  /** Round trip: an encodable object encodes without error, and decoding
      the dictionary it encodes to rebuilds exactly the same object. */
  lemma RoundTripObject(reg: Registry, v: Value)
    requires Encodable(reg, v)
    ensures EncodeObject(reg, v).Ok?
    ensures DecodeObject(reg, v.cls, EncodeObject(reg, v).value) == Ok(v)
    decreases v, 4
  {
    var d := reg[v.cls];
    assert Fields(d)[0..] == Fields(d);
    RoundTripFields(reg, v, 0, [], []);
    ConstructFromArgsOf(reg, v);
  }

  /** The other direction on the encoder's image: a dictionary written for
      an encodable object decodes, and encoding the result writes that same
      dictionary again. */
  lemma EncodeDecodeEncode(reg: Registry, v: Value)
    requires Encodable(reg, v)
    ensures EncodeObject(reg, v).Ok?
    ensures var p := EncodeObject(reg, v).value;
      DecodeObject(reg, v.cls, p).Ok?
      && DecodeObject(reg, v.cls, p).value.VObject? && DecodeObject(reg, v.cls, p).value.cls in reg
      && EncodeObject(reg, DecodeObject(reg, v.cls, p).value) == Ok(p)
  {
    RoundTripObject(reg, v);
  }
}
