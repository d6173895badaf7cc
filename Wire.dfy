/** Parsed JSON documents as the HTTP layer hands them to the marshaller, and
    the small failure-carrying wrappers the rest of the model uses. A JSON
    object keeps its members in order, as a Python dict built by `json` does. */
module Wire {

  datatype Option<T> = None | Some(value: T)

  datatype Result<T, E> = Ok(value: T) | Err(error: E) {
    predicate IsFailure() { Err? }
    function PropagateFailure<U>(): Result<U, E>
      requires Err?
    {
      Err(error)
    }
    function Extract(): T
      requires Ok?
    {
      value
    }
  }

  datatype Json =
    | JNull
    | JBool(b: bool)
    | JInt(i: int)
    | JStr(s: string)
    | JArray(items: seq<Json>)
    | JObject(members: seq<Member>)

  datatype Member = Member(key: string, value: Json)

  predicate IsScalar(j: Json) {
    !j.JArray? && !j.JObject?
  }

  /** The keys of an ordered dictionary, in order. */
  function KeysOf(ms: seq<Member>): (ks: seq<string>)
    ensures |ks| == |ms|
    ensures forall i :: 0 <= i < |ms| ==> ks[i] == ms[i].key
  {
    if ms == [] then [] else [ms[0].key] + KeysOf(ms[1..])
  }

  predicate HasKey(ms: seq<Member>, k: string) {
    k in KeysOf(ms)
  }

  /** `d[k]` on a dictionary: the value stored under `k`, if any. */
  function Lookup(ms: seq<Member>, k: string): (r: Option<Json>)
    ensures r.Some? <==> HasKey(ms, k)
  {
    if ms == [] then None
    else if ms[0].key == k then Some(ms[0].value)
    else
      assert KeysOf(ms) == [ms[0].key] + KeysOf(ms[1..]);
      Lookup(ms[1..], k)
  }

  /** `d[k] = v` on a Python dict: an existing key keeps its position and
      takes the new value, a new key is appended at the end. */
  function Put(ms: seq<Member>, k: string, v: Json): seq<Member> {
    if ms == [] then [Member(k, v)]
    else if ms[0].key == k then [Member(k, v)] + ms[1..]
    else [ms[0]] + Put(ms[1..], k, v)
  }

  /** `d[k] = v` keeps the keys in place and appends `k` when it is new. */
  lemma {:induction false} PutKeys(ms: seq<Member>, k: string, v: Json)
    ensures KeysOf(Put(ms, k, v)) == if HasKey(ms, k) then KeysOf(ms) else KeysOf(ms) + [k]
  {
    if ms == [] {
      assert KeysOf([Member(k, v)]) == [k];
    } else {
      assert ms == [ms[0]] + ms[1..];
      KeysOfAppend([ms[0]], ms[1..]);
      assert KeysOf([ms[0]]) == [ms[0].key];
      if ms[0].key == k {
        KeysOfAppend([Member(k, v)], ms[1..]);
        assert KeysOf([Member(k, v)]) == [k];
      } else {
        PutKeys(ms[1..], k, v);
        KeysOfAppend([ms[0]], Put(ms[1..], k, v));
        assert HasKey(ms, k) == HasKey(ms[1..], k);
      }
    }
  }

  /** A new key is appended at the end. */
  lemma {:induction false} PutFresh(ms: seq<Member>, k: string, v: Json)
    requires !HasKey(ms, k)
    ensures Put(ms, k, v) == ms + [Member(k, v)]
  {
    if ms != [] {
      assert KeysOf(ms)[0] == ms[0].key;
      assert KeysOf(ms) == [ms[0].key] + KeysOf(ms[1..]);
      PutFresh(ms[1..], k, v);
      assert ms + [Member(k, v)] == [ms[0]] + (ms[1..] + [Member(k, v)]);
    }
  }

  /** After `d[k] = v`, `d[k]` is `v`. */
  lemma {:induction false} PutLooksUp(ms: seq<Member>, k: string, v: Json)
    ensures Lookup(Put(ms, k, v), k) == Some(v)
  {
    if ms != [] {
      if ms[0].key == k {
        LookupCons(Member(k, v), ms[1..], k);
      } else {
        PutLooksUp(ms[1..], k, v);
        LookupCons(ms[0], Put(ms[1..], k, v), k);
      }
    }
  }

  /** `d[k] = v` leaves the value under every other key as it was. */
  lemma {:induction false} PutKeepsOthers(ms: seq<Member>, k: string, v: Json, k': string)
    requires k' != k
    ensures Lookup(Put(ms, k, v), k') == Lookup(ms, k')
  {
    if ms != [] {
      assert ms == [ms[0]] + ms[1..];
      LookupCons(ms[0], ms[1..], k');
      if ms[0].key == k {
        LookupCons(Member(k, v), ms[1..], k');
      } else {
        PutKeepsOthers(ms[1..], k, v, k');
        LookupCons(ms[0], Put(ms[1..], k, v), k');
      }
    }
  }

  /** Looking a key up in a dictionary whose first member is `m`. */
  lemma LookupCons(m: Member, rest: seq<Member>, k: string)
    ensures Lookup([m] + rest, k) == if m.key == k then Some(m.value) else Lookup(rest, k)
  {
    assert ([m] + rest)[0] == m && ([m] + rest)[1..] == rest;
  }

  /** The keys of two dictionaries laid end to end. */
  lemma KeysOfAppend(a: seq<Member>, b: seq<Member>)
    ensures KeysOf(a + b) == KeysOf(a) + KeysOf(b)
  {
    var ab, l, r := a + b, KeysOf(a + b), KeysOf(a) + KeysOf(b);
    assert |l| == |ab| == |r|;
    forall i | 0 <= i < |l| ensures l[i] == r[i] {
      if i < |a| {
        assert ab[i] == a[i] && r[i] == KeysOf(a)[i];
      } else {
        assert ab[i] == b[i - |a|] && r[i] == KeysOf(b)[i - |a|];
      }
    }
  }

  /** Looking a key up in two dictionaries laid end to end finds it in the
      first when it is there, else in the second. */
  lemma {:induction false} LookupAppend(a: seq<Member>, b: seq<Member>, k: string)
    ensures Lookup(a + b, k) == if HasKey(a, k) then Lookup(a, k) else Lookup(b, k)
  {
    if a == [] {
      assert a + b == b;
    } else {
      assert (a + b)[1..] == a[1..] + b;
      assert KeysOf(a) == [a[0].key] + KeysOf(a[1..]);
      LookupAppend(a[1..], b, k);
    }
  }
}
