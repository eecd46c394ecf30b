/** The Python values the checker handles once `json.load` has run, and the
    Python operations it applies to them: truthiness, `dict.get`, `or`, and
    `str`/`repr` as used by an f-string. */
module PyJson {
  import opened PyText

  /** A file or value that may be absent. */
  datatype Option<+T> = None | Some(value: T)

  /** The outcome of a Python call: it returned a value, or it raised. */
  datatype Outcome<+T> = Returned(value: T) | Raised

  /** A value built by `json.load`: None, bool, int, str, list or dict. A dict
      is its (key, value) entries in insertion order, the order in which
      `dict.values()` visits them. */
  datatype JValue =
    | JNull
    | JBool(b: bool)
    | JNum(n: int)
    | JStr(s: string)
    | JArr(items: seq<JValue>)
    | JObj(members: seq<(string, JValue)>)

  /** Python truthiness: None, False, 0, "", [] and {} are falsy. */
  predicate Truthy(v: JValue)
  {
    match v
    case JNull => false
    case JBool(b) => b
    case JNum(n) => n != 0
    case JStr(s) => s != []
    case JArr(items) => items != []
    case JObj(members) => members != []
  }

  /** The keys of a dict. */
  function Keys(members: seq<(string, JValue)>): set<string>
  {
    set k | 0 <= k < |members| :: members[k].0
  }

  /** No key is repeated, as in every dict `json.load` builds. */
  predicate DistinctKeys(members: seq<(string, JValue)>)
  {
    forall i, j :: 0 <= i < j < |members| ==> members[i].0 != members[j].0
  }

  /** The keys of a non-empty dict are its first key and the keys of the rest. */
  lemma KeysCons(members: seq<(string, JValue)>)
    requires members != []
    ensures Keys(members) == {members[0].0} + Keys(members[1..])
  {
    forall key | key in Keys(members) ensures key in {members[0].0} + Keys(members[1..]) {
      var k :| 0 <= k < |members| && members[k].0 == key;
      if k > 0 { assert members[1..][k - 1] == members[k]; }
    }
    forall key | key in Keys(members[1..]) ensures key in Keys(members) {
      var k :| 0 <= k < |members[1..]| && members[1..][k].0 == key;
      assert members[k + 1] == members[1..][k];
    }
  }

  /** Dropping the first entry of a dict with distinct keys leaves distinct keys,
      none of them the dropped key. */
  lemma DistinctKeysTail(members: seq<(string, JValue)>)
    requires members != [] && DistinctKeys(members)
    ensures DistinctKeys(members[1..]) && members[0].0 !in Keys(members[1..])
  {
    var rest := members[1..];
    forall i, j | 0 <= i < j < |rest| ensures rest[i].0 != rest[j].0 {
      assert rest[i] == members[i + 1] && rest[j] == members[j + 1];
    }
    forall k | 0 <= k < |rest| ensures rest[k].0 != members[0].0 {
      assert rest[k] == members[k + 1];
    }
  }

  /** With distinct keys, `len(d)` is the number of keys. */
  lemma {:induction false} DistinctKeysCount(members: seq<(string, JValue)>)
    ensures DistinctKeys(members) ==> |Keys(members)| == |members|
  {
    if members != [] && DistinctKeys(members) {
      DistinctKeysTail(members);
      DistinctKeysCount(members[1..]);
      KeysCons(members);
    }
  }

  /** `d.get(key)`: the value of the first entry with that key, or None when
      there is none (a stored null reads the same). */
  function Get(members: seq<(string, JValue)>, key: string): (r: JValue)
    ensures key !in Keys(members) ==> r == JNull
    ensures key in Keys(members) ==>
      exists i :: 0 <= i < |members| && members[i] == (key, r) && forall j :: 0 <= j < i ==> members[j].0 != key
  {
    if members == [] then JNull
    else if members[0].0 == key then members[0].1
    else
      KeysCons(members);
      var r := Get(members[1..], key);
      assert key in Keys(members) ==> exists i :: 0 <= i < |members| && members[i] == (key, r) && forall j :: 0 <= j < i ==> members[j].0 != key by {
        if key in Keys(members) {
          var i :| 0 <= i < |members[1..]| && members[1..][i] == (key, r) && forall j :: 0 <= j < i ==> members[1..][j].0 != key;
          assert members[i + 1] == (key, r);
          assert forall j :: 0 <= j < i + 1 ==> members[j].0 != key by {
            forall j | 0 <= j < i + 1 ensures members[j].0 != key {
              if j > 0 { assert members[j] == members[1..][j - 1]; }
            }
          }
        }
      }
      r
  }

  /** Entries placed in front of a dict's entries do not change `get` of a key they lack. */
  lemma {:induction false} GetSkipsOtherKeys(front: seq<(string, JValue)>, members: seq<(string, JValue)>, key: string)
    requires key !in Keys(front)
    ensures Get(front + members, key) == Get(members, key)
    ensures key in Keys(members) ==> key in Keys(front + members)
  {
    if front != [] {
      assert (front + members)[1..] == front[1..] + members;
      assert key != front[0].0;
      assert key !in Keys(front[1..]) by {
        forall k | 0 <= k < |front[1..]| ensures front[1..][k].0 != key {
          assert front[1..][k] == front[k + 1];
        }
      }
      GetSkipsOtherKeys(front[1..], members, key);
      assert (front + members)[0].0 != key;
    } else {
      assert front + members == members;
    }
    if key in Keys(members) {
      var k :| 0 <= k < |members| && members[k].0 == key;
      assert (front + members)[|front| + k] == members[k];
    }
  }

  /** Python's `x or y`: `x` when it is truthy, otherwise `y`. */
  function Or(x: JValue, y: JValue): (r: JValue)
    ensures Truthy(x) ==> r == x
    ensures !Truthy(x) ==> r == y
    ensures Truthy(r) <==> Truthy(x) || Truthy(y)
  {
    if Truthy(x) then x else y
  }

  /** `", ".join(parts)`. */
  function Join(parts: seq<string>): string
  {
    if parts == [] then "" else if |parts| == 1 then parts[0] else parts[0] + ", " + Join(parts[1..])
  }

  /** `repr(v)`; a string is shown between single quotes. */
  function Repr(v: JValue): string
  {
    match v
    case JNull => "None"
    case JBool(b) => if b then "True" else "False"
    case JNum(n) => IntText(n)
    case JStr(s) => "'" + s + "'"
    case JArr(items) =>
      "[" + Join(seq(|items|, i requires 0 <= i < |items| => Repr(items[i]))) + "]"
    case JObj(members) =>
      "{" + Join(seq(|members|, i requires 0 <= i < |members| =>
                       "'" + members[i].0 + "': " + Repr(members[i].1))) + "}"
  }

  /** `str(v)`, which is what `f"{v}"` inserts: a string itself, anything else its repr. */
  function Str(v: JValue): (r: string)
    ensures v.JStr? ==> r == v.s
    ensures v.JNum? ==> r == IntText(v.n)
  {
    if v.JStr? then v.s else Repr(v)
  }
}
