/**
 * The in-memory API-description document the parser walks, and its
 * dotted-path accessor `safe_get` (parser/openapi.py).
 */
module Documents {
  import opened Results
  import opened Text

  /**
   * A parsed JSON value. An object keeps its members in document order,
   * as a Python dict does; `Null` is also what Python's `None` stands for
   * when a lookup finds nothing.
   */
  datatype Json =
    | Null
    | Bool(b: bool)
    | Num(n: int)
    | Str(s: string)
    | Arr(items: seq<Json>)
    | Obj(members: seq<(string, Json)>)

  /** Member keys are pairwise distinct, as they are in a Python dict. */
  predicate DistinctKeys(members: seq<(string, Json)>)
  {
    forall i, j :: 0 <= i < j < |members| ==> members[i].0 != members[j].0
  }

  /** The value stored under `key`, if any. */
  function Lookup(members: seq<(string, Json)>, key: string): (r: Option<Json>)
    ensures r.Some? <==> exists i :: 0 <= i < |members| && members[i].0 == key
    ensures r.Some? ==> exists i :: 0 <= i < |members| && members[i] == (key, r.value)
  {
    if members == [] then None
    else if members[0].0 == key then Some(members[0].1)
    else
      var r := Lookup(members[1..], key);
      assert forall i :: 0 <= i < |members[1..]| ==> members[1..][i] == members[i + 1];
      r
  }

  /** `dict.get(key, default)` */
  function Get(members: seq<(string, Json)>, key: string, default: Json): Json
  {
    Lookup(members, key).GetOr(default)
  }

  /** One step of the reduce in `safe_get`. */
  function Step(d: Json, key: string, default: Json): Json
  {
    match d
    case Obj(members) => Get(members, key, default)
    case _ => default
  }

  /** The reduce in `safe_get`: a left fold of `Step` over the keys. */
  function Walk(d: Json, keys: seq<string>, default: Json): Json
    decreases |keys|
  {
    if keys == [] then d else Walk(Step(d, keys[0], default), keys[1..], default)
  }

  /** `safe_get(keys, default)` on the parser's document. */
  function SafeGet(doc: Json, path: string, default: Json): Json
  {
    Walk(doc, SplitOn(path, "."), default)
  }

  /** Reference lookup: the value at a key path, or nothing when a key is missing or a value on the way is not an object. */
  function Find(d: Json, keys: seq<string>): Option<Json>
    decreases |keys|
  {
    if keys == [] then Some(d)
    else match d
      case Obj(members) =>
        (match Lookup(members, keys[0])
         case Some(v) => Find(v, keys[1..])
         case None => None)
      case _ => None
  }

  lemma {:induction false} WalkFromDefault(keys: seq<string>, default: Json)
    requires !default.Obj?
    ensures Walk(default, keys, default) == default
    decreases |keys|
  {
    if keys != [] {
      WalkFromDefault(keys[1..], default);
    }
  }

  lemma {:induction false} WalkIsFind(d: Json, keys: seq<string>, default: Json)
    requires !default.Obj?
    ensures Walk(d, keys, default) == Find(d, keys).GetOr(default)
    decreases |keys|
  {
    if keys != [] {
      var next := Step(d, keys[0], default);
      match d {
        case Obj(members) =>
          match Lookup(members, keys[0]) {
            case Some(v) => WalkIsFind(v, keys[1..], default);
            case None => WalkFromDefault(keys[1..], default);
          }
        case _ =>
          WalkFromDefault(keys[1..], default);
      }
    }
  }

  /**
   * With a default that is not an object (the parser always uses `None`),
   * `safe_get` returns the default as soon as a key is missing or a value on
   * the path is not an object, and the nested value otherwise.
   */
  lemma SafeGetFinds(doc: Json, path: string, default: Json)
    requires !default.Obj?
    ensures SafeGet(doc, path, default) == Find(doc, SplitOn(path, ".")).GetOr(default)
    ensures forall k :: 0 <= k < |SplitOn(path, ".")| ==> '.' !in SplitOn(path, ".")[k]
  {
    WalkIsFind(doc, SplitOn(path, "."), default);
    SplitPiecesLackSeparator(path, ".");
  }

  /** A path without dots names a single key. */
  lemma {:induction false} SplitWithoutSeparator(s: string)
    requires '.' !in s
    ensures SplitOn(s, ".") == [s]
    decreases |s|
  {
    if |s| >= 1 {
      assert s[..1] == [s[0]];
      SplitWithoutSeparator(s[1..]);
      assert s == [s[0]] + s[1..];
    }
  }

  /** Splitting `a.b` on the dot gives `a` and the pieces of `b`. */
  lemma {:induction false} SplitAtFirstDot(a: string, b: string)
    requires '.' !in a
    ensures SplitOn(a + "." + b, ".") == [a] + SplitOn(b, ".")
    decreases |a|
  {
    var s := a + "." + b;
    if a == [] {
      assert s[..1] == ".";
      assert s[1..] == b;
    } else {
      assert s[..1] == [a[0]];
      assert s[1..] == a[1..] + "." + b;
      SplitAtFirstDot(a[1..], b);
      assert [a[0]] + a[1..] == a;
    }
  }

  /** `safe_get('a.b')` for two dot-free keys. */
  lemma SafeGetTwoKeys(doc: Json, a: string, b: string, default: Json)
    requires '.' !in a && '.' !in b
    ensures SafeGet(doc, a + "." + b, default) == Step(Step(doc, a, default), b, default)
  {
    SplitAtFirstDot(a, b);
    SplitWithoutSeparator(b);
    var keys := SplitOn(a + "." + b, ".");
    assert keys == [a, b];
    assert keys[1..] == [b] && keys[1..][1..] == [];
    var first := Step(doc, a, default);
    assert Walk(doc, keys, default) == Walk(first, [b], default);
    assert Walk(first, [b], default) == Walk(Step(first, b, default), [], default);
  }
}
