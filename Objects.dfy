/** Instances of the registered classes and their constructors and getters.
    A constructor of a response or domain class takes one keyword argument
    per stored field, stores each argument in the like-named slot and does
    nothing else; a property returns the stored slot unchanged. */
module Objects {
  import opened Wire
  import opened Registry

  /** A decoded or caller-built value. `VDict` is a plain dictionary of JSON
      data that a caller passes in (the `params` of a `Function`); the
      decoder never produces one. An object records its class and a value
      (possibly `VNone`) for every stored field. */
  datatype Value =
    | VNone
    | VBool(b: bool)
    | VInt(i: int)
    | VStr(s: string)
    | VList(items: seq<Value>)
    | VDict(members: seq<Member>)
    | VObject(cls: string, fields: map<string, Value>)

  /** One keyword argument of a constructor call. */
  datatype Arg = Arg(name: string, value: Value)

  datatype ConstructError =
    | RepeatedArgument      // a keyword given twice: rejected before the call
    | UnexpectedArgument    // a keyword the constructor has no parameter for
    | MissingArgument       // a parameter without a default left out

  /** The value given for keyword `name`, if any (the first one). */
  function ArgValue(args: seq<Arg>, name: string): (r: Option<Value>)
    ensures r.Some? <==> exists i :: 0 <= i < |args| && args[i].name == name
    ensures r.Some? ==> exists i :: 0 <= i < |args| && args[i] == Arg(name, r.value)
  {
    if args == [] then None
    else if args[0].name == name then Some(args[0].value)
    else
      var r := ArgValue(args[1..], name);
      assert forall i :: 0 <= i < |args| - 1 ==> args[1..][i] == args[i + 1];
      r
  }

  predicate DistinctNames(args: seq<Arg>) {
    forall i, j :: 0 <= i < j < |args| ==> args[i].name != args[j].name
  }

  /** An argument whose keyword no later argument takes keeps keywords
      distinct. */
  lemma DistinctNamesCons(a: Arg, rest: seq<Arg>)
    requires DistinctNames(rest) && forall j :: 0 <= j < |rest| ==> rest[j].name != a.name
    ensures DistinctNames([a] + rest)
  {
    var args := [a] + rest;
    forall i, j | 0 <= i < j < |args| ensures args[i].name != args[j].name {
      assert args[j] == rest[j - 1];
      if i > 0 {
        assert args[i] == rest[i - 1];
      }
    }
  }

  /** Whether the constructor of `d` has a parameter called `name`. */
  predicate IsParameter(d: Descriptor, name: string) {
    exists f :: f in Fields(d) && ArgumentName(f) == name
  }

  /** What a successful constructor call stores in field `f`. */
  function StoredValue(args: seq<Arg>, f: string): Value {
    match ArgValue(args, ArgumentName(f))
    case Some(x) => x
    case None => VNone
  }

  /** `cls(**args)`: the call is accepted exactly when no keyword repeats,
      every keyword is a parameter, and every parameter without a default
      is given; the new instance has exactly the class's fields, each
      holding its argument, or `None` when left to its default. */
  function Construct(cls: string, d: Descriptor, args: seq<Arg>): (r: Result<Value, ConstructError>)
    ensures r.Ok? <==>
      DistinctNames(args)
      && (forall i :: 0 <= i < |args| ==> IsParameter(d, args[i].name))
      && (forall f :: f in Fields(d) && f !in d.optional ==> ArgValue(args, ArgumentName(f)).Some?)
    ensures r.Ok? ==> r.value.VObject? && r.value.cls == cls
    ensures r.Ok? ==> forall f :: f in r.value.fields <==> f in Fields(d)
    ensures r.Ok? ==> forall f :: f in Fields(d) ==> r.value.fields[f] == StoredValue(args, f)
  {
    if !DistinctNames(args) then Err(RepeatedArgument)
    else if exists i :: 0 <= i < |args| && !IsParameter(d, args[i].name) then Err(UnexpectedArgument)
    else if exists f :: f in Fields(d) && f !in d.optional && ArgValue(args, ArgumentName(f)).None? then
      Err(MissingArgument)
    else
      Ok(VObject(cls, map f | f in Fields(d) :: StoredValue(args, f)))
  }

  /** An accepted call whose stored values are those of `fields`, over the
      same fields, builds the object holding `fields`. */
  lemma ConstructStoring(cls: string, d: Descriptor, args: seq<Arg>, fields: map<string, Value>)
    requires Construct(cls, d, args).Ok?
    requires forall f :: f in fields <==> f in Fields(d)
    requires forall f :: f in fields ==> StoredValue(args, f) == fields[f]
    ensures Construct(cls, d, args) == Ok(VObject(cls, fields))
  {
    assert Construct(cls, d, args).value.fields == fields;
  }

  /** Every argument of an accepted call lands in the field it names: nothing
      passed to a constructor is lost. */
  lemma ConstructStoresEveryArgument(cls: string, d: Descriptor, args: seq<Arg>, i: nat)
    requires Construct(cls, d, args).Ok? && i < |args|
    ensures exists f :: (f in Fields(d) && ArgumentName(f) == args[i].name
      && Construct(cls, d, args).value.fields[f] == args[i].value)
  {
    assert IsParameter(d, args[i].name);
    var f :| f in Fields(d) && ArgumentName(f) == args[i].name;
    UniqueArgValue(args, i);
  }

  /** When keywords do not repeat, each argument is the one found by name. */
  lemma {:induction false} UniqueArgValue(args: seq<Arg>, i: nat)
    requires DistinctNames(args) && i < |args|
    ensures ArgValue(args, args[i].name) == Some(args[i].value)
  {
    if i > 0 {
      assert args[0].name != args[i].name;
      assert DistinctNames(args[1..]) by {
        assert forall a :: 0 <= a < |args| - 1 ==> args[1..][a] == args[a + 1];
      }
      UniqueArgValue(args[1..], i - 1);
    }
  }

  /** Reading property `name` of an instance of the class described by `d`:
      the stored slot when the class declares that property, an
      AttributeError (`None` here) otherwise. */
  function Get(d: Descriptor, v: Value, name: string): (r: Option<Value>)
    requires v.VObject?
    ensures r.Some? <==> name in d.getters && name in v.fields
    ensures r.Some? ==> r.value == v.fields[name]
  {
    if name in d.getters && name in v.fields then Some(v.fields[name]) else None
  }

  /** A getter of a freshly constructed instance returns exactly the
      argument given for that field, or `None` when it was left to its
      default. */
  lemma GetAfterConstruct(cls: string, d: Descriptor, args: seq<Arg>, name: string)
    requires WellFormed(d) && name in d.getters
    requires Construct(cls, d, args).Ok?
    ensures Get(d, Construct(cls, d, args).value, name) ==
      Some(match ArgValue(args, ArgumentName(name)) case Some(x) => x case None => VNone)
  {
  }
}
