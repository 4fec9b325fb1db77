/** `nlohmann::ordered_json`: values, and objects that keep their keys in insertion order. */
module Json {
  import opened Prelude

  datatype Json =
    | Null
    | Bool(b: bool)
    | Int(i: int)
    | Float(r: real)
    | Str(s: string)
    | Arr(items: seq<Json>)
    | Obj(fields: Object)

  datatype Field = Field(key: string, value: Json)

  type Object = seq<Field>

  function Get(o: Object, key: string): Option<Json> {
    if o == [] then None
    else if o[0].key == key then Some(o[0].value)
    else Get(o[1..], key)
  }

  /** Assignment keeps the key's place, or appends. */
  function Put(o: Object, key: string, value: Json): Object {
    if o == [] then [Field(key, value)]
    else if o[0].key == key then [Field(key, value)] + o[1..]
    else [o[0]] + Put(o[1..], key, value)
  }

  function Erase(o: Object, key: string): Object {
    if o == [] then []
    else if o[0].key == key then o[1..]
    else [o[0]] + Erase(o[1..], key)
  }

  lemma {:induction false} GetPut(o: Object, key: string, value: Json, other: string)
    ensures Get(Put(o, key, value), other) == if other == key then Some(value) else Get(o, other)
  {
    if o != [] && o[0].key != key {
      GetPut(o[1..], key, value, other);
      assert Put(o, key, value)[1..] == Put(o[1..], key, value);
    } else if o != [] {
      assert Put(o, key, value)[1..] == o[1..];
    } else {
      assert Put(o, key, value)[1..] == [];
    }
  }

  lemma {:induction false} EraseAfterPut(params: Object, key: string, v: Json)
    ensures Erase(Put(params, key, v), key) == Erase(params, key)
    ensures Erase(params, key) == params <==> Get(params, key).None?
  {
    if params != [] {
      if params[0].key == key {
        assert Put(params, key, v)[1..] == params[1..];
      } else {
        assert Put(params, key, v)[1..] == Put(params[1..], key, v);
        EraseAfterPut(params[1..], key, v);
      }
    }
  }

  lemma {:induction false} PutAfterPut(params: Object, key: string, v: Json, w: Json)
    ensures Put(Put(params, key, v), key, w) == Put(params, key, w)
    ensures Get(params, key) == Some(w) ==> Put(params, key, w) == params
  {
    if params != [] {
      if params[0].key == key {
        assert Put(params, key, v)[1..] == params[1..];
        assert params == [params[0]] + params[1..];
      } else {
        assert Put(params, key, v)[1..] == Put(params[1..], key, v);
        PutAfterPut(params[1..], key, v, w);
        assert params == [params[0]] + params[1..];
      }
    }
  }

  /** As in any JSON object. */
  ghost predicate UniqueKeys(o: Object) {
    forall i, j :: 0 <= i < j < |o| ==> o[i].key != o[j].key
  }

  lemma {:induction false} ErasedIsGone(o: Object, key: string)
    requires UniqueKeys(o)
    ensures Get(Erase(o, key), key).None?
  {
    if o != [] {
      assert UniqueKeys(o[1..]);
      if o[0].key == key {
        NoSuchKey(o[1..], key);
      } else {
        ErasedIsGone(o[1..], key);
        assert Erase(o, key)[1..] == Erase(o[1..], key);
      }
    }
  }

  lemma {:induction false} NoSuchKey(o: Object, key: string)
    requires forall i :: 0 <= i < |o| ==> o[i].key != key
    ensures Get(o, key).None?
  {
    if o != [] {
      NoSuchKey(o[1..], key);
    }
  }

  lemma {:induction false} PutKeepsKeysUnique(o: Object, key: string, value: Json)
    requires UniqueKeys(o)
    ensures UniqueKeys(Put(o, key, value))
    ensures forall f :: f in Put(o, key, value) ==> f.key == key || exists g :: g in o && g.key == f.key
  {
    if o != [] {
      assert UniqueKeys(o[1..]);
      PutKeepsKeysUnique(o[1..], key, value);
      assert o == [o[0]] + o[1..];
      if o[0].key != key {
        forall f | f in Put(o[1..], key, value) ensures f.key != o[0].key {
          if f.key != key {
            var g :| g in o[1..] && g.key == f.key;
          }
        }
      }
    }
  }

  lemma {:induction false} GetErase(o: Object, key: string, other: string)
    requires other != key
    ensures Get(Erase(o, key), other) == Get(o, other)
  {
    if o != [] && o[0].key != key {
      GetErase(o[1..], key, other);
      assert Erase(o, key)[1..] == Erase(o[1..], key);
    }
  }

  // ---------------------------------------------------------------- scalars as text

  function Digit(d: nat): char
    requires d < 10
  {
    "0123456789"[d]
  }

  function Decimal(n: nat): string {
    if n < 10 then [Digit(n)] else Decimal(n / 10) + [Digit(n % 10)]
  }

  function ToString(n: int): string {
    if n < 0 then "-" + Decimal(-n) else Decimal(n)
  }

  /** `json_scalar_string`: floats, arrays, objects and null have no topic text. */
  function ScalarString(v: Json): string {
    match v
    case Str(s) => s
    case Int(i) => ToString(i)
    case Bool(b) => if b then "true" else "false"
    case _ => ""
  }
}
