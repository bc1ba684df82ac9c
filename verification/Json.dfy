/** JSON trees with the in-place access by pointer of the JSON library the program uses. */
module JsonTrees {
  import opened Options

  datatype Json =
    | Null
    | Bool(b: bool)
    | Number(n: real)
    | Str(s: string)
    | Arr(items: seq<Json>)
    | Obj(members: map<string, Json>)

  /** A value, or the exception the library throws. */
  datatype Outcome<+T> = Ok(value: T) | Thrown

  /** The members of an object; a null is turned into an empty object, anything else throws. */
  function MembersOf(d: Json): Outcome<map<string, Json>> {
    match d
    case Null => Ok(map[])
    case Obj(m) => Ok(m)
    case _ => Thrown
  }

  function Child(m: map<string, Json>, key: string): Json {
    if key in m then m[key] else Null
  }

  /**
    What d looks like after writing v at a pointer: missing parents are created, and a parent
    that is neither null nor an object throws. The tokens are names, never array positions.
   */
  function Put(d: Json, path: seq<string>, v: Json): Outcome<Json>
    decreases |path|
  {
    if path == [] then Ok(v)
    else
      match MembersOf(d)
      case Thrown => Thrown
      case Ok(m) =>
        match Put(Child(m, path[0]), path[1..], v)
        case Thrown => Thrown
        case Ok(c) => Ok(Obj(m[path[0] := c]))
  }

  /** The value a pointer refers to, null when it is only now created. */
  function Get(d: Json, path: seq<string>): Outcome<Json>
    decreases |path|
  {
    if path == [] then Ok(d)
    else
      match MembersOf(d)
      case Thrown => Thrown
      case Ok(m) => Get(Child(m, path[0]), path[1..])
  }

  /** Merely referring to a pointer writes a null where nothing was. */
  function Touch(d: Json, path: seq<string>): Outcome<Json> {
    match Get(d, path)
    case Thrown => Thrown
    case Ok(v) => Put(d, path, v)
  }

  /** Reading without creating anything. */
  function Lookup(d: Json, path: seq<string>): Option<Json> {
    if path == [] then Some(d)
    else if d.Obj? && path[0] in d.members then Lookup(d.members[path[0]], path[1..])
    else None
  }

  /** A pointer can be written exactly when it can be read, and then reads back what was written. */
  lemma {:induction false} PutThenGet(d: Json, path: seq<string>, v: Json)
    ensures Put(d, path, v).Ok? <==> Get(d, path).Ok?
    ensures Put(d, path, v).Ok? ==> Get(Put(d, path, v).value, path) == Ok(v)
    decreases |path|
  {
    if path != [] && MembersOf(d).Ok? {
      PutThenGet(Child(MembersOf(d).value, path[0]), path[1..], v);
    }
  }

  /** Writing at a pointer leaves everything alone that does not lie on the same path. */
  lemma {:induction false} PutElsewhere(d: Json, path: seq<string>, v: Json, other: seq<string>, i: nat)
    requires Put(d, path, v).Ok?
    requires i < |path| && i < |other| && path[..i] == other[..i] && path[i] != other[i]
    ensures Lookup(Put(d, path, v).value, other) == Lookup(d, other)
    decreases |path|
  {
    if i > 0 {
      assert path[0] == path[..i][0] == other[..i][0] == other[0];
      assert path[1..][..i - 1] == path[..i][1..] && other[1..][..i - 1] == other[..i][1..];
      PutElsewhere(Child(MembersOf(d).value, path[0]), path[1..], v, other[1..], i - 1);
    }
  }

  lemma PutRoot(m: map<string, Json>, key: string, v: Json)
    ensures Get(Obj(m), [key]) == Ok(Child(m, key))
    ensures Put(Obj(m), [key], v) == Ok(Obj(m[key := v]))
  {
  }

  lemma TouchRoot(m: map<string, Json>, key: string)
    ensures Touch(Obj(m), [key]) == Ok(Obj(m[key := Child(m, key)]))
  {
    PutRoot(m, key, Child(m, key));
  }

  /** Three tokens deep: the inner object, and the tree with another inner object in its place. */
  function Inner(m: map<string, Json>, a: string, b: string): Outcome<map<string, Json>> {
    match MembersOf(Child(m, a))
    case Thrown => Thrown
    case Ok(n) => MembersOf(Child(n, b))
  }

  function WithInner(m: map<string, Json>, a: string, b: string, p: map<string, Json>): map<string, Json>
    requires Inner(m, a, b).Ok?
  {
    m[a := Obj(MembersOf(Child(m, a)).value[b := Obj(p)])]
  }

  lemma InnerOfWith(m: map<string, Json>, a: string, b: string, p: map<string, Json>, q: map<string, Json>)
    requires Inner(m, a, b).Ok?
    ensures Inner(WithInner(m, a, b, p), a, b) == Ok(p)
    ensures WithInner(WithInner(m, a, b, p), a, b, q) == WithInner(m, a, b, q)
  {
    var n := MembersOf(Child(m, a)).value;
    assert n[b := Obj(p)][b := Obj(q)] == n[b := Obj(q)];
    assert m[a := Obj(n[b := Obj(p)])][a := Obj(n[b := Obj(q)])] == m[a := Obj(n[b := Obj(q)])];
  }

  lemma PutInner(m: map<string, Json>, a: string, b: string, key: string, v: Json)
    ensures Inner(m, a, b).Thrown? ==> Get(Obj(m), [a, b, key]).Thrown? && Put(Obj(m), [a, b, key], v).Thrown?
    ensures Inner(m, a, b).Ok? ==>
              var p := Inner(m, a, b).value;
              && Get(Obj(m), [a, b, key]) == Ok(Child(p, key))
              && Put(Obj(m), [a, b, key], v) == Ok(Obj(WithInner(m, a, b, p[key := v])))
  {
    assert [a, b, key][1..] == [b, key] && [b, key][1..] == [key];
    if MembersOf(Child(m, a)).Ok? {
      var n := MembersOf(Child(m, a)).value;
      if MembersOf(Child(n, b)).Ok? {
        var p := MembersOf(Child(n, b)).value;
        GetPutNull(Child(n, b), p, key, v);
      } else {
        assert Get(Child(n, b), [key]).Thrown? && Put(Child(n, b), [key], v).Thrown?;
      }
    }
  }

  lemma GetPutNull(d: Json, p: map<string, Json>, key: string, v: Json)
    requires MembersOf(d) == Ok(p)
    ensures Get(d, [key]) == Ok(Child(p, key)) && Put(d, [key], v) == Ok(Obj(p[key := v]))
  {
  }

  lemma TouchInner(m: map<string, Json>, a: string, b: string, key: string)
    ensures Inner(m, a, b).Thrown? ==> Touch(Obj(m), [a, b, key]).Thrown?
    ensures Inner(m, a, b).Ok? ==>
              var p := Inner(m, a, b).value;
              Touch(Obj(m), [a, b, key]) == Ok(Obj(WithInner(m, a, b, p[key := Child(p, key)])))
  {
    if Inner(m, a, b).Ok? {
      PutInner(m, a, b, key, Child(Inner(m, a, b).value, key));
    } else {
      PutInner(m, a, b, key, Null);
    }
  }
}
