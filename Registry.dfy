/** The class tables that drive the marshaller. Every response and domain
    class declares its stored fields (`__slots__` without the leading
    underscore), an `attribute_name_map` that maps a field name to its wire
    key and a wire key back to its field name, an `attribute_type_map` from
    field name to a type string such as `'int'`, `'Status'` or
    `'List[Thermostat]'`, the constructor parameters that have a default,
    and the read-only properties. The module namespace in which
    `utilities.py` resolves class names is a map from class name to these
    tables. */
module Registry {
  import opened Wire
  import opened Text

  datatype Descriptor = Descriptor(
    slots: seq<string>,
    inherited: seq<string>,
    nameMap: map<string, string>,
    typeMap: map<string, string>,
    optional: set<string>,
    getters: set<string>)

  type Registry = map<string, Descriptor>

  /** All fields an instance stores: its own slots, then those the base
      class constructor stores (`status` for the `EcobeeStatusResponse`
      subclasses). */
  function Fields(d: Descriptor): seq<string> {
    d.slots + d.inherited
  }

  /** `_class_name_map`: the wire keys whose capitalised form is not a class. */
  const ClassNameMap: map<string, string> := map["tou" := "TimeOfUse"]

  /** Python keywords and the builtin names a generated keyword argument
      would shadow. */
  const ReservedNames: set<string> := {
    "False", "None", "True", "and", "as", "assert", "async", "await", "break",
    "class", "continue", "def", "del", "elif", "else", "except", "finally",
    "for", "from", "global", "if", "import", "in", "is", "lambda", "nonlocal",
    "not", "or", "pass", "raise", "return", "try", "while", "with", "yield",
    "abs", "all", "any", "ascii", "bin", "bool", "bytearray", "bytes",
    "callable", "chr", "classmethod", "compile", "complex", "copyright",
    "credits", "delattr", "dict", "dir", "divmod", "enumerate", "eval", "exec",
    "exit", "filter", "float", "format", "frozenset", "getattr", "globals",
    "hasattr", "hash", "help", "hex", "id", "input", "int", "isinstance",
    "issubclass", "iter", "len", "license", "list", "locals", "map", "max",
    "memoryview", "min", "next", "object", "oct", "open", "ord", "pow",
    "print", "property", "quit", "range", "repr", "reversed", "round", "set",
    "setattr", "slice", "sorted", "staticmethod", "str", "sum", "super",
    "tuple", "type", "vars", "zip"
  }

  /** The keyword that a scalar member for field `f` is passed under: a
      name that is a builtin or a keyword gets a trailing underscore. The
      model takes this to be the name of the constructor's parameter for
      `f` as well; the class tables do not record parameter names. */
  function ArgumentName(f: string): (a: string)
    ensures f in ReservedNames ==> a == f + "_"
    ensures f !in ReservedNames ==> a == f
  {
    if f in ReservedNames then f + "_" else f
  }

  /** Whether a declared type names a list: `'List' in t`. */
  predicate IsListType(t: string) {
    Contains(t, "List")
  }

  /** `t[5:-1]` with Python's slice clipping: `'List[Group]'` gives `'Group'`,
      and a string of fewer than seven characters gives `''`. */
  function ElementName(t: string): (e: string)
    ensures |t| >= 6 ==> e == t[5..|t| - 1]
    ensures |t| < 6 ==> e == ""
  {
    if |t| >= 6 then t[5..|t| - 1] else ""
  }

  /** A type written `List[e]` is a list type whose element name is `e`. */
  lemma ListTypeOf(e: string)
    ensures IsListType("List[" + e + "]") && ElementName("List[" + e + "]") == e
  {
    var t := "List[" + e + "]";
    assert t[..4] == "List";
    assert t[5..|t| - 1] == e;
  }

  /** Class resolution for a nested object under wire key `key`: the key with
      its first character upper-cased, and failing that `_class_name_map`. */
  function ResolveNested(reg: Registry, key: string): (r: Option<string>)
    ensures r.Some? ==> r.value in reg
    ensures Capitalize(key) in reg ==> r == Some(Capitalize(key))
    ensures Capitalize(key) !in reg ==>
      (r.Some? <==> key in ClassNameMap && ClassNameMap[key] in reg)
    ensures Capitalize(key) !in reg && r.Some? ==> r.value == ClassNameMap[key]
  {
    if Capitalize(key) in reg then Some(Capitalize(key))
    else if key in ClassNameMap && ClassNameMap[key] in reg then Some(ClassNameMap[key])
    else None
  }

  predicate Distinct(s: seq<string>) {
    forall i, j :: 0 <= i < j < |s| ==> s[i] != s[j]
  }

  /** The tables of one class agree with each other: every field has a wire
      key whose entry maps back to the field, every other key of the name
      map is the wire key of a field, every field has a declared type,
      distinct fields have distinct keyword arguments, and the defaults and
      getters concern stored fields. */
  predicate WellFormed(d: Descriptor) {
    Distinct(Fields(d)) && NamesBidirectional(d) && TypesDeclared(d) && KeywordsDistinct(d)
    && (forall f :: f in d.optional ==> f in Fields(d))
    && (forall f :: f in d.getters ==> f in Fields(d))
  }

  /** Every field has a wire key that maps back to it, and every other key
      of the name map is the wire key of a field. */
  predicate NamesBidirectional(d: Descriptor) {
    (forall f :: f in Fields(d) ==> f in d.nameMap && d.nameMap[f] in d.nameMap && d.nameMap[d.nameMap[f]] == f)
    && (forall k :: k in d.nameMap && k !in Fields(d) ==> d.nameMap[k] in Fields(d) && d.nameMap[d.nameMap[k]] == k)
  }

  /** The type map declares exactly the fields. */
  predicate TypesDeclared(d: Descriptor) {
    (forall k :: k in d.typeMap ==> k in Fields(d)) && (forall f :: f in Fields(d) ==> f in d.typeMap)
  }

  /** Distinct fields are passed under distinct keywords. */
  predicate KeywordsDistinct(d: Descriptor) {
    forall f, g :: f in Fields(d) && g in Fields(d) && f != g ==> ArgumentName(f) != ArgumentName(g)
  }

  /** No field name ends with an underscore, as in every table of the
      source. */
  predicate NoTrailingUnderscore(fs: seq<string>) {
    forall f :: f in fs ==> f == [] || f[|f| - 1] != '_'
  }

  /** Renaming builtins with a trailing underscore cannot make two fields
      share a keyword, as long as no field already ends with one. */
  lemma ArgumentNameInjective(fs: seq<string>)
    requires NoTrailingUnderscore(fs)
    ensures forall f, g :: f in fs && g in fs && f != g ==> ArgumentName(f) != ArgumentName(g)
  {
    forall f, g | f in fs && g in fs && f != g
      ensures ArgumentName(f) != ArgumentName(g)
    {
      SuffixApart(f, g, f in ReservedNames, g in ReservedNames);
    }
  }

  /** Appending `_` to some of two distinct names that do not end with one
      keeps them distinct. */
  lemma SuffixApart(f: string, g: string, renameF: bool, renameG: bool)
    requires f != g && (f == [] || f[|f| - 1] != '_') && (g == [] || g[|g| - 1] != '_')
    ensures (if renameF then f + "_" else f) != (if renameG then g + "_" else g)
  {
    if renameF && !renameG {
      assert (f + "_")[|f|] == '_';
    } else if renameG && !renameF {
      assert (g + "_")[|g|] == '_';
    } else if renameF {
      assert f == (f + "_")[..|f|] && g == (g + "_")[..|g|];
    }
  }

  /** One row of a class's tables: a stored field, the wire key it is
      written under (`attribute_name_map[field]`), its declared type
      (`attribute_type_map[field]`), whether its constructor parameter has
      a default, and whether the class has a property that returns it. */
  datatype Entry = Entry(field: string, wire: string, typ: string, defaulted: bool, getter: bool)

  function FieldsOf(es: seq<Entry>): (fs: seq<string>)
    ensures |fs| == |es| && forall i :: 0 <= i < |es| ==> fs[i] == es[i].field
  {
    if es == [] then [] else [es[0].field] + FieldsOf(es[1..])
  }

  /** `attribute_name_map` of rows `es`: each field maps to its wire key and
      each wire key back to its field. */
  function NameMapOf(es: seq<Entry>): map<string, string> {
    if es == [] then map[]
    else NameMapOf(es[1..])[es[0].wire := es[0].field][es[0].field := es[0].wire]
  }

  /** `attribute_type_map` of rows `es`. */
  function TypeMapOf(es: seq<Entry>): map<string, string> {
    if es == [] then map[] else TypeMapOf(es[1..])[es[0].field := es[0].typ]
  }

  /** The fields whose constructor parameter defaults to `None`. */
  function DefaultedOf(es: seq<Entry>): set<string> {
    if es == [] then {} else (if es[0].defaulted then {es[0].field} else {}) + DefaultedOf(es[1..])
  }

  /** The fields that have a property. */
  function GettersOf(es: seq<Entry>): set<string> {
    if es == [] then {} else (if es[0].getter then {es[0].field} else {}) + GettersOf(es[1..])
  }

  /** The tables of a class whose first `own` rows are its own slots and
      whose remaining rows are stored by the base class constructor. */
  function Describe(rows: seq<Entry>, own: nat): (d: Descriptor)
    requires own <= |rows|
  {
    Descriptor(FieldsOf(rows[..own]), FieldsOf(rows[own..]), NameMapOf(rows), TypeMapOf(rows),
      DefaultedOf(rows), GettersOf(rows))
  }

  /** The rows of a class agree: fields are distinct, wire keys are
      distinct, and a wire key is a field name only when it is its own
      field's name. */
  predicate EntriesOk(es: seq<Entry>) {
    (forall i, j :: 0 <= i < j < |es| ==> es[i].field != es[j].field && es[i].wire != es[j].wire)
    && (forall i, j :: 0 <= i < |es| && 0 <= j < |es| && es[i].wire == es[j].field ==> i == j)
  }

  /** Row `r` shares no name with row `e`. */
  predicate Apart(e: Entry, r: Entry) {
    r.field != e.field && r.wire != e.wire && r.wire != e.field && r.field != e.wire
  }

  predicate ApartFromAll(e: Entry, rest: seq<Entry>) {
    rest == [] || (Apart(e, rest[0]) && ApartFromAll(e, rest[1..]))
  }

  /** A row-by-row check of the rows of one class, which the verifier can
      evaluate on a table written out in full. */
  predicate RowsOk(es: seq<Entry>) {
    es == []
    || ((es[0].field == [] || es[0].field[|es[0].field| - 1] != '_')
        && ApartFromAll(es[0], es[1..]) && RowsOk(es[1..]))
  }

  lemma {:induction false} ApartFromEach(e: Entry, rest: seq<Entry>, j: nat)
    requires ApartFromAll(e, rest) && j < |rest|
    ensures Apart(e, rest[j])
  {
    if j > 0 {
      ApartFromEach(e, rest[1..], j - 1);
    }
  }

  /** The row-by-row check establishes the quantified agreement of the rows
      and that no field ends with an underscore. */
  lemma RowsOkSound(es: seq<Entry>)
    requires RowsOk(es)
    ensures EntriesOk(es) && NoTrailingUnderscore(FieldsOf(es))
  {
    RowsOkAgree(es);
    RowsOkFieldEnds(es);
  }

  lemma {:induction false} RowsOkAgree(es: seq<Entry>)
    requires RowsOk(es)
    ensures EntriesOk(es)
  {
    if es != [] {
      RowsOkAgree(es[1..]);
      forall j | 0 < j < |es| ensures Apart(es[0], es[j]) {
        ApartFromEach(es[0], es[1..], j - 1);
      }
      EntriesOkCons(es);
    }
  }

  lemma {:induction false} RowsOkFieldEnds(es: seq<Entry>)
    requires RowsOk(es)
    ensures NoTrailingUnderscore(FieldsOf(es))
  {
    if es != [] {
      RowsOkFieldEnds(es[1..]);
      assert FieldsOf(es) == [es[0].field] + FieldsOf(es[1..]);
    }
  }

  /** A first row apart from every later row extends agreeing rows. */
  lemma EntriesOkCons(es: seq<Entry>)
    requires es != [] && EntriesOk(es[1..])
    requires forall j :: 0 < j < |es| ==> Apart(es[0], es[j])
    ensures EntriesOk(es)
  {
    var tl := es[1..];
    forall i, j | 0 <= i < j < |es| ensures es[i].field != es[j].field && es[i].wire != es[j].wire {
      if i > 0 {
        assert es[i] == tl[i - 1] && es[j] == tl[j - 1];
      }
    }
    forall i, j | 0 <= i < |es| && 0 <= j < |es| && es[i].wire == es[j].field ensures i == j {
      if i > 0 && j > 0 {
        assert es[i] == tl[i - 1] && es[j] == tl[j - 1];
      }
    }
  }

  lemma {:induction false} ApartFromAllAppend(x: Entry, rest: seq<Entry>, e: Entry)
    requires ApartFromAll(x, rest) && Apart(x, e)
    ensures ApartFromAll(x, rest + [e])
  {
    if rest != [] {
      assert (rest + [e])[1..] == rest[1..] + [e];
      ApartFromAllAppend(x, rest[1..], e);
    }
  }

  /** A row that shares no name with earlier rows can be appended. */
  lemma {:induction false} RowsOkAppend(es: seq<Entry>, e: Entry)
    requires RowsOk(es) && RowsOk([e]) && ApartFromAll(e, es)
    ensures RowsOk(es + [e])
  {
    if es == [] {
      assert es + [e] == [e];
    } else {
      assert (es + [e])[1..] == es[1..] + [e];
      RowsOkAppend(es[1..], e);
      ApartFromAllAppend(es[0], es[1..], e);
    }
  }

  lemma EntriesOkTail(es: seq<Entry>)
    requires es != [] && EntriesOk(es)
    ensures EntriesOk(es[1..])
    ensures forall i :: 0 < i < |es| ==>
      es[i].field != es[0].field && es[i].field != es[0].wire
      && es[i].wire != es[0].field && es[i].wire != es[0].wire
  {
    assert forall i :: 0 <= i < |es| - 1 ==> es[1..][i] == es[i + 1];
  }

  /** Row `i` is found in both directions of the name map. */
  lemma {:induction false} NameMapAt(es: seq<Entry>, i: nat)
    requires EntriesOk(es) && i < |es|
    ensures es[i].field in NameMapOf(es) && NameMapOf(es)[es[i].field] == es[i].wire
    ensures es[i].wire in NameMapOf(es) && NameMapOf(es)[es[i].wire] == es[i].field
  {
    if i > 0 {
      EntriesOkTail(es);
      NameMapAt(es[1..], i - 1);
      assert es[1..][i - 1] == es[i];
    }
  }

  /** Every key of the name map comes from some row. */
  lemma {:induction false} NameMapKey(es: seq<Entry>, k: string) returns (i: nat)
    requires k in NameMapOf(es)
    ensures i < |es| && (k == es[i].field || k == es[i].wire)
  {
    if k == es[0].field || k == es[0].wire {
      i := 0;
    } else {
      var p := NameMapKey(es[1..], k);
      assert es[1..][p] == es[p + 1];
      i := p + 1;
    }
  }

  lemma {:induction false} TypeMapOfKeys(es: seq<Entry>)
    ensures forall k :: k in TypeMapOf(es) <==> k in FieldsOf(es)
  {
    if es != [] {
      TypeMapOfKeys(es[1..]);
      assert FieldsOf(es) == [es[0].field] + FieldsOf(es[1..]);
    }
  }

  /** Row `i` gives its field's declared type. */
  lemma {:induction false} TypeMapAt(es: seq<Entry>, i: nat)
    requires EntriesOk(es) && i < |es|
    ensures es[i].field in TypeMapOf(es) && TypeMapOf(es)[es[i].field] == es[i].typ
  {
    if i > 0 {
      EntriesOkTail(es);
      TypeMapAt(es[1..], i - 1);
      assert es[1..][i - 1] == es[i];
    }
  }

  /** Row `i`'s flags put its field among the defaulted fields and the
      fields with a property. */
  lemma {:induction false} FlagsAt(es: seq<Entry>, i: nat)
    requires i < |es|
    ensures es[i].defaulted ==> es[i].field in DefaultedOf(es)
    ensures es[i].getter ==> es[i].field in GettersOf(es)
  {
    if i > 0 {
      FlagsAt(es[1..], i - 1);
      assert es[1..][i - 1] == es[i];
    }
  }

  lemma {:induction false} FlagsAreFields(es: seq<Entry>)
    ensures forall f :: f in DefaultedOf(es) ==> f in FieldsOf(es)
    ensures forall f :: f in GettersOf(es) ==> f in FieldsOf(es)
  {
    if es != [] {
      FlagsAreFields(es[1..]);
      assert FieldsOf(es) == [es[0].field] + FieldsOf(es[1..]);
    }
  }

  /** The name map built from agreeing rows is bidirectional. */
  lemma NameMapOfBidirectional(es: seq<Entry>)
    requires EntriesOk(es)
    ensures forall f :: f in FieldsOf(es) ==>
      f in NameMapOf(es) && NameMapOf(es)[f] in NameMapOf(es) && NameMapOf(es)[NameMapOf(es)[f]] == f
    ensures forall k :: k in NameMapOf(es) && k !in FieldsOf(es) ==>
      NameMapOf(es)[k] in FieldsOf(es) && NameMapOf(es)[NameMapOf(es)[k]] == k
  {
    var fs := FieldsOf(es);
    var m := NameMapOf(es);
    forall f | f in fs ensures f in m && m[f] in m && m[m[f]] == f {
      var i :| 0 <= i < |fs| && fs[i] == f;
      NameMapAt(es, i);
    }
    forall k | k in m && k !in fs ensures m[k] in fs && m[m[k]] == k {
      var i := NameMapKey(es, k);
      NameMapAt(es, i);
      assert fs[i] == es[i].field;
    }
  }

  lemma {:induction false} FieldsOfAppend(a: seq<Entry>, b: seq<Entry>)
    ensures FieldsOf(a + b) == FieldsOf(a) + FieldsOf(b)
  {
    if a != [] {
      assert (a + b)[1..] == a[1..] + b;
      FieldsOfAppend(a[1..], b);
    } else {
      assert a + b == b;
    }
  }

  lemma DescribeFields(rows: seq<Entry>, own: nat)
    requires own <= |rows|
    ensures Fields(Describe(rows, own)) == FieldsOf(rows)
  {
    FieldsOfAppend(rows[..own], rows[own..]);
    assert rows[..own] + rows[own..] == rows;
  }

  lemma DescribeNames(rows: seq<Entry>, own: nat)
    requires own <= |rows| && EntriesOk(rows)
    ensures NamesBidirectional(Describe(rows, own))
  {
    DescribeFields(rows, own);
    NameMapOfBidirectional(rows);
  }

  lemma DescribeTypes(rows: seq<Entry>, own: nat)
    requires own <= |rows|
    ensures TypesDeclared(Describe(rows, own))
  {
    DescribeFields(rows, own);
    TypeMapOfKeys(rows);
  }

  lemma DescribeKeywords(rows: seq<Entry>, own: nat)
    requires own <= |rows| && NoTrailingUnderscore(FieldsOf(rows))
    ensures KeywordsDistinct(Describe(rows, own))
  {
    DescribeFields(rows, own);
    ArgumentNameInjective(FieldsOf(rows));
  }

  lemma DescribeDistinct(rows: seq<Entry>, own: nat)
    requires own <= |rows| && EntriesOk(rows)
    ensures Distinct(Fields(Describe(rows, own)))
  {
    DescribeFields(rows, own);
    var fs := FieldsOf(rows);
    forall i, j | 0 <= i < j < |fs| ensures fs[i] != fs[j] {
      assert fs[i] == rows[i].field && fs[j] == rows[j].field;
    }
  }

  lemma DescribeFlags(rows: seq<Entry>, own: nat)
    requires own <= |rows|
    ensures var d := Describe(rows, own);
      (forall f :: f in d.optional ==> f in Fields(d)) && (forall f :: f in d.getters ==> f in Fields(d))
  {
    DescribeFields(rows, own);
    FlagsAreFields(rows);
  }

  /** Field `f` is written under wire key `w` and read back from it. */
  predicate Renamed(d: Descriptor, f: string, w: string) {
    f in d.nameMap && d.nameMap[f] == w && w in d.nameMap && d.nameMap[w] == f
  }

  /** Field `f` is declared with type `t`. */
  predicate Declares(d: Descriptor, f: string, t: string) {
    f in d.typeMap && d.typeMap[f] == t
  }

  /** What row `i` of agreeing rows puts into the tables. */
  lemma DescribeRow(rows: seq<Entry>, own: nat, i: nat)
    requires own <= |rows| && EntriesOk(rows) && i < |rows|
    ensures var d := Describe(rows, own);
      Renamed(d, rows[i].field, rows[i].wire) && Declares(d, rows[i].field, rows[i].typ)
      && (rows[i].defaulted ==> rows[i].field in d.optional)
      && (rows[i].getter ==> rows[i].field in d.getters)
  {
    NameMapAt(rows, i);
    TypeMapAt(rows, i);
    FlagsAt(rows, i);
  }

  /** A class whose rows pass the row-by-row check has well-formed tables. */
  lemma DescribeWellFormed(rows: seq<Entry>, own: nat)
    requires own <= |rows| && RowsOk(rows)
    ensures WellFormed(Describe(rows, own))
  {
    RowsOkSound(rows);
    DescribeNames(rows, own);
    DescribeTypes(rows, own);
    DescribeKeywords(rows, own);
    DescribeDistinct(rows, own);
    DescribeFlags(rows, own);
  }
}
