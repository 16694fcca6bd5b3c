/** Nested JSON-like documents, and the functions of k8s.io/apimachinery's `unstructured` package that read
    and write them by path, with the lens laws that connect the two. */
module Documents {
  import opened Wrappers

  // StringMap is a Go map[string]string, which is not a map[string]interface{}.
  datatype Value =
    | Null
    | Bool(b: bool)
    | Int(n: int)
    | Str(s: string)
    | Arr(items: seq<Value>)
    | Obj(fields: Fields)
    | StringMap(strings: map<string, string>)

  type Fields = map<string, Value>

  type Path = seq<string>

  datatype Lookup = Found(value: Value) | Missing | WrongType

  // unstructured.NestedFieldNoCopy
  function Get(v: Value, path: Path): Lookup {
    if path == [] then Found(v)
    else if v.Null? then Missing
    else if !v.Obj? then WrongType
    else if path[0] !in v.fields then Missing
    else Get(v.fields[path[0]], path[1..])
  }

  // unstructured.SetNestedField; None is its error, and then nothing has been written.
  function Set(v: Value, path: Path, x: Value): Option<Value>
    decreases path, v, x
  {
    if path == [] then Some(x)
    else if !v.Obj? then None
    else
      var inner := Set(if path[0] in v.fields then v.fields[path[0]] else Obj(map[]), path[1..], x);
      if inner.None? then None else Some(Obj(v.fields[path[0] := inner.value]))
  }

  // Neither path leads through the other.
  predicate Apart(p: Path, q: Path) {
    p != [] && q != [] && (p[0] != q[0] || Apart(p[1..], q[1..]))
  }

  lemma {:induction false} ApartAt(p: Path, q: Path, i: nat)
    requires i < |p| && i < |q| && p[i] != q[i]
    ensures Apart(p, q)
  {
    if i > 0 && p[0] == q[0] {
      ApartAt(p[1..], q[1..], i - 1);
    }
  }

  // A path can be set exactly when no value on the way to it is something other than an object.
  ghost predicate Settable(v: Value, path: Path) {
    forall i :: 0 <= i < |path| && Get(v, path[..i]) != Missing ==>
      Get(v, path[..i]).Found? && Get(v, path[..i]).value.Obj?
  }

  lemma {:induction false} GetStep(v: Value, path: Path, i: nat)
    requires v.Obj? && path != [] && path[0] in v.fields && i < |path|
    ensures Get(v.fields[path[0]], path[1..][..i]) == Get(v, path[..i + 1])
  {
    assert path[..i + 1][1..] == path[1..][..i];
  }

  // ---------- lens laws ----------

  lemma {:induction false} GetSet(v: Value, path: Path, x: Value)
    ensures Set(v, path, x).Some? ==> Get(Set(v, path, x).value, path) == Found(x)
    decreases path
  {
    if path != [] && v.Obj? {
      GetSet(if path[0] in v.fields then v.fields[path[0]] else Obj(map[]), path[1..], x);
    }
  }

  lemma {:induction false} SetGet(v: Value, path: Path)
    requires Get(v, path).Found?
    ensures Set(v, path, Get(v, path).value) == Some(v)
  {
    if path != [] {
      SetGet(v.fields[path[0]], path[1..]);
      assert v.fields[path[0] := v.fields[path[0]]] == v.fields;
    }
  }

  lemma {:induction false} SetSet(v: Value, path: Path, x: Value, y: Value)
    requires Set(v, path, x).Some?
    ensures Set(Set(v, path, x).value, path, y) == Set(v, path, y)
    decreases path
  {
    if path != [] {
      var f := v.fields;
      var inner := if path[0] in f then f[path[0]] else Obj(map[]);
      SetSet(inner, path[1..], x, y);
      SetWhatever(inner, path[1..], x, y);
      var g := f[path[0] := Set(inner, path[1..], x).value];
      assert g[path[0] := Set(inner, path[1..], y).value] == f[path[0] := Set(inner, path[1..], y).value];
    }
  }

  // Whether a path can be set does not depend on the value.
  lemma {:induction false} SetWhatever(v: Value, path: Path, x: Value, y: Value)
    ensures Set(v, path, x).Some? == Set(v, path, y).Some?
    decreases path
  {
    if path != [] && v.Obj? {
      SetWhatever(if path[0] in v.fields then v.fields[path[0]] else Obj(map[]), path[1..], x, y);
    }
  }

  // Setting one path leaves every path apart from it as it was, present, missing or ill-typed.
  lemma {:induction false} Frame(v: Value, path: Path, x: Value, q: Path)
    requires Apart(path, q) && Set(v, path, x).Some?
    ensures Get(Set(v, path, x).value, q) == Get(v, q)
    decreases path
  {
    if path[0] == q[0] {
      var inner := if path[0] in v.fields then v.fields[path[0]] else Obj(map[]);
      Frame(inner, path[1..], x, q[1..]);
    }
  }

  lemma {:induction false} SettableExactly(v: Value, path: Path, x: Value)
    ensures Set(v, path, x).Some? <==> Settable(v, path)
    decreases path
  {
    if path == [] {
    } else if !v.Obj? {
      assert path[..0] == [] && Get(v, path[..0]) == Found(v);
    } else if path[0] !in v.fields {
      SetFresh(path[1..], x);
      forall i | 0 < i < |path|
        ensures Get(v, path[..i]) == Missing
      {
        assert path[..i][0] == path[0];
      }
      assert Get(v, path[..0]) == Found(v);
    } else {
      var inner := v.fields[path[0]];
      SettableExactly(inner, path[1..], x);
      forall i | 0 <= i < |path| - 1
        ensures Get(inner, path[1..][..i]) == Get(v, path[..i + 1])
      {
        GetStep(v, path, i);
      }
      assert Get(v, path[..0]) == Found(v);
      if Settable(inner, path[1..]) {
        forall i | 0 <= i < |path| && Get(v, path[..i]) != Missing
          ensures Get(v, path[..i]).Found? && Get(v, path[..i]).value.Obj?
        {
          if i > 0 { assert Get(inner, path[1..][..i - 1]) == Get(v, path[..i - 1 + 1]); }
        }
      }
      if Settable(v, path) {
        forall i | 0 <= i < |path| - 1 && Get(inner, path[1..][..i]) != Missing
          ensures Get(inner, path[1..][..i]).Found? && Get(inner, path[1..][..i]).value.Obj?
        {
          assert Get(v, path[..i + 1]) == Get(inner, path[1..][..i]);
        }
      }
    }
  }

  lemma {:induction false} SetFresh(path: Path, x: Value)
    ensures Set(Obj(map[]), path, x).Some?
  {
    if path != [] {
      SetFresh(path[1..], x);
    }
  }

  // A path can be set when its first field can be and the rest can be set below it.
  lemma SettableBelow(v: Value, key: string, rest: Path)
    requires v.Obj?
    requires rest != [] ==> key in v.fields && Set(v.fields[key], rest, Null).Some?
    ensures Set(v, [key] + rest, Null).Some?
  {
    assert ([key] + rest)[1..] == rest;
  }

  lemma GetKey(f: Fields, key: string)
    ensures Get(Obj(f), [key]) == if key in f then Found(f[key]) else Missing
  {
    assert [key][1..] == [];
  }

  lemma GetPair(f: Fields, key: string, inner: string)
    ensures Get(Obj(f), [key, inner]) == if key in f then Get(f[key], [inner]) else Missing
  {
    assert [key, inner][1..] == [inner];
  }

  // Reading a field of the object at a path.
  lemma {:induction false} GetAppend(v: Value, path: Path, key: string)
    ensures Get(v, path + [key]).Found? ==> Get(v, path).Found? && Get(v, path).value.Obj?
    ensures Get(v, path).Found? && Get(v, path).value.Obj? ==>
              var f := Get(v, path).value.fields;
              Get(v, path + [key]) == if key in f then Found(f[key]) else Missing
    decreases path
  {
    if path != [] {
      assert (path + [key])[1..] == path[1..] + [key];
      if v.Obj? && path[0] in v.fields {
        GetAppend(v.fields[path[0]], path[1..], key);
      }
    } else {
      assert path + [key] == [key] && [key][1..] == [];
    }
  }

  // ---------- documents edited in place ----------

  // A path stays settable when it, or a path apart from it, is set.
  lemma {:induction false} StaysSettable(v: Value, p: Path, x: Value, path: Path)
    requires Set(v, path, Null).Some? && Set(v, p, x).Some? && (Apart(p, path) || p == path)
    ensures Set(Set(v, p, x).value, path, Null).Some?
    decreases path
  {
    if path != [] && p[0] == path[0] {
      StaysSettable(if p[0] in v.fields then v.fields[p[0]] else Obj(map[]), p[1..], x, path[1..]);
    }
  }

  // An unstructured object, edited in place.
  class Document {
    var root: Value

    constructor (root: Value)
      ensures this.root == root
    {
      this.root := root;
    }

    method SetNestedField(x: Value, path: Path) returns (ok: bool)
      modifies this
      ensures ok <==> Set(old(root), path, x).Some?
      ensures root == if ok then Set(old(root), path, x).value else old(root)
    {
      var r := Set(root, path, x);
      ok := r.Some?;
      if ok { root := r.value; }
    }
  }
}
